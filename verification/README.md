# Promptise: verified models of the cache, the approval gate, context trimming and the classifier

This project models four in-process state machines of the `promptise` package
and proves what they promise over every input, every run and every
interleaving. `dafny verify dfyconfig.toml` checks all of it.

| files | what they model |
|---|---|
| `CacheStore`, `CacheBackend`, `CacheOrder`, `CacheEviction`, `CacheRecency`, `CacheTotalRecency` | `InMemoryCacheBackend`: dictionaries of parallel lists changed in place, refined to a value-level store; search as an argmax; what eviction takes, by age and by use |
| `CacheRequests`, `CacheCompletion`, `CacheArrival`, `CachePurge`, `SemanticCache` | the write-generation protocol of `SemanticCache` and `ToolCallWatcher`, under every interleaving of requests, tools, lookups and purges; what it leaves open before a request's watcher exists and after a purge |
| `ScopeKeys`, `Text` | partition keys and isolation keys: length-prefixed strings decoded again |
| `RequestIds`, `Denials`, `GateLocks`, `QueueHandler`, `ApprovalGate`, `GateLimits`, `SequentialGate` | the parts of the approval gate, each over whole runs, and the gate that combines them |
| `Conversation`, `ContextTrim`, `ContextBudget`, `ContextFit`, `ContextEngine`, `ContextAssembly` | conversation text parsed and printed, the trimming loop, the bound it always meets, the exact condition for the budget itself, and one `assemble` |
| `Classifier` | the decision hierarchy of `AutoApprovalClassifier` and its statistics |
| `Sorting`, `Collections` | the stable sort that search, trimming and assembly rely on; ordered dictionaries |

How the parts fit together:

- Objects are classes with the fields of the source. Each method is proved
  against a function of the old state; invariants and run theorems are proved
  about those functions. A protocol step is the code between two suspension
  points, and the class method for that step has the same function in its
  `ensures`.
- Time is a `real` given to each operation, one reading per operation. Runs
  require that the clock does not go back.
- Hashes, `fnmatch`, regular expressions, the embedding model and the
  tokenizer are parameters. Key results say "or the hash collides" rather than
  assuming that it does not.

Where the code does not do what its documentation says, the model follows the
code:

- Trimming "until total fits within budget"
  (`src/promptise/context_engine.py:592`) may end above the budget:
  `EllipsisEndsOver` is an input. `TrimmingFits` says exactly when the trimming
  loop meets the budget, and `ReportMeetsBudget` says it of the report of an
  assembly. That is not the condition for a single truncation
  (`TruncatedMeetsTarget`): a later layer can absorb the token that an ellipsis
  left over (`OvershootAbsorbed`).
- The bound that does hold is "budget plus one", and it needs a condition on
  conversation text: prefixes shorter than the ones it is printed back with
  can miss even that (`ShortPrefixesAreUnfair`). `FairIsExact` gives the
  condition that holds if and only if the bound does in every assembly, and
  `CanonicalIsFair` shows that text no shorter than its own reprint meets it.
- The cache's "LRU" eviction (`src/promptise/cache.py:343`, `:423`) is first in,
  first out, because a search never moves an entry. `RecencyIsIgnored` and
  `RecencyIsIgnoredInTotal` are runs in which the per-scope and the total cap
  evict the entry used last. A full scope evicts its least recently used entry
  exactly when no search answered with it after a younger entry was last stored
  or answered (`EvictsLruExactly`); the total cap evicts the least recently
  used entry of all scopes exactly when that holds of the entries of all
  scopes and no entry stored before it at the very same time has gone unused since
  (`EvictsLruOfAllExactly`).
- A request that is already running when a write lands in its scope is said not
  to store its answer (`docs/core/cache.md:330`). The generation is read when
  the watcher is created (`src/promptise/agent.py:1050`), after the request
  has awaited memory, strategies and the cache check. `WriteIsMissed` is a run
  in which a write lands in between and the older answer is stored.
  `CachedSinceArrival` says when the promise holds: if and only if no write
  landed between the request's arrival and its watcher.
- `purge_user` is said to remove all of a user's cached entries, as for a request
  to delete their data (`docs/core/cache.md:157`). A purge bumps no generation, so an earlier request can fill the partition again
  (`PurgeIsOvertaken`). `RefillIsExact` names the requests that can, and
  `PurgeIsFinal` says that a purge is final if and only if there are none.
- "Required layers (priority >= 9) are never dropped"
  (`src/promptise/context_engine.py:101-102`): the code looks at `required`
  only. `PriorityNineIsDropped` is an input, and `RequiredIsExact` says that a
  layer is safe in every assembly if and only if it is required.

## Model

| member | source | states |
|---|---|---|
| CacheBackend.InMemoryCacheBackend.Search | src/promptise/cache.py:366-420 | refines `Searched`: the best servable entry of the scope, and exactly the expired and the corrupted entries ranked above it removed; other scopes untouched |
| CacheBackend.InMemoryCacheBackend.Store | src/promptise/cache.py:422-445 | the contents become `StoreEntry` of the old ones, one store is counted, and caps, parallel lists, total and conservation of stores hold again |
| CacheBackend.InMemoryCacheBackend.TrimScope | src/promptise/cache.py:431-434 | the per-scope eviction loop keeps exactly the newest entries, one fewer than the cap |
| CacheBackend.InMemoryCacheBackend.TrimTotal | src/promptise/cache.py:436-439 | the global eviction loop ends, below the total cap, as the recursive specification says |
| CacheBackend.InMemoryCacheBackend.EvictOldestGlobal | src/promptise/cache.py:504-513 | removes the first entry of the scope with the oldest head and nothing else |
| CacheBackend.InMemoryCacheBackend.EvictExpired | src/promptise/cache.py:498-502 | leaves exactly the unexpired entries, in order |
| CacheBackend.InMemoryCacheBackend.RemovePositions | src/promptise/cache.py:418-419 | removing listed positions from the highest down removes exactly those, rows and total included |
| CacheBackend.InMemoryCacheBackend.RemoveEntry | src/promptise/cache.py:490-496 | one entry, its row and one of the total go together |
| CacheBackend.InMemoryCacheBackend.Invalidate | src/promptise/cache.py:447-472 | the whole scope, or exactly the entries that used a matching tool; the count returned is the number removed |
| CacheBackend.InMemoryCacheBackend.PurgeUser | src/promptise/cache.py:474-485 | exactly the partition `user:<id>` goes, and its size is returned |
| CacheBackend.WalkStops | src/promptise/cache.py:402-416 | stopping the walk down the ranking finds the best servable entry and has met exactly the corrupted ones above it |
| CacheStore.SearchAnswers | src/promptise/cache.py:366-420 | an answer is live, intact, accepted and of maximal score; there is none only if nothing is servable |
| CacheStore.SearchKeeps | src/promptise/cache.py:391-419 | a search removes nothing that is live and intact |
| CacheStore.BestUnique | src/promptise/cache.py:404-416 | the result is determined: among equal scores the earliest stored |
| CacheStore.OldestKey | src/promptise/cache.py:504-513 | the scope found has a minimal first entry among all nonempty scopes, and there is one unless all are empty |
| CacheStore.ShrinkBelow | src/promptise/cache.py:436-439 | evicting down to the cap terminates at exactly one below it and keeps every scope's key |
| CacheEviction.StoreMeetsCaps | src/promptise/cache.py:422-445 | a store meets both caps, puts its entry last in its scope, and otherwise only drops entries from the front |
| CacheEviction.RunEvictsOldest | src/promptise/cache.py:429-439 | in every run with nondecreasing creation times every eviction takes a minimum: of its scope for the per-scope loop, of all scopes for the global one |
| CacheEviction.ShrinkIsEvictTimes | src/promptise/cache.py:436-439 | the global loop evicts exactly as often as it takes to get one below the cap |
| CacheRecency.EvictsLruExactly | src/promptise/cache.py:431-434 | the entry a full scope evicts is its least recently used one if and only if no search answered with it after a younger entry was last stored or answered |
| CacheTotalRecency.EvictsLruOfAllExactly | src/promptise/cache.py:436-439 | in every run with nondecreasing creation times, the entry the total cap evicts is the least recently used of all scopes if and only if no search answered with it after another entry was last used and no tie in creation time has gone unused |
| CacheTotalRecency.RecencyIsIgnoredInTotal | src/promptise/cache.py:404-439 | a run in which the total cap evicts the entry a search has just answered with |
| CacheRecency.RecencyIsIgnored | src/promptise/cache.py:404-434 | a run that answers with an entry and then evicts it before one used earlier |
| CacheRecency.RunByStore | src/promptise/cache.py:366-485 | in every run each scope lists entries stored in it, in the order of their stores |
| CacheOrder.EvictionIsOldest | src/promptise/cache.py:504-513 | in creation-ordered contents the entry evicted is no younger than any entry of any scope |
| CacheOrder.NextInOrder | src/promptise/cache.py:422-513 | every operation keeps every scope in creation order |
| CacheOrder.RunInOrder | src/promptise/cache.py:366-513 | so does every run whose stores carry nondecreasing times |
| CacheOrder.StoresKeepNewest | src/promptise/cache.py:429-445 | with stores alone and room in total, a scope is the newest suffix of its store history |
| SemanticCache.SemanticCache.WriteGeneration | src/promptise/cache.py:1054-1061 | the number of write invalidations of the caller's scope |
| SemanticCache.SemanticCache.Check | src/promptise/cache.py:1087-1131 | answers from the caller's own partition, under the same context, model and instructions, and nothing only if no live intact entry of these is similar enough; counts one hit or one miss; touches no other partition |
| SemanticCache.SemanticCache.StoreBegin | src/promptise/cache.py:1161-1175 | the embedding call is made only with a scope, text and a current generation |
| SemanticCache.SemanticCache.StoreFinish | src/promptise/cache.py:1177-1207 | nothing is stored if the embedding failed or a write landed during it; else one entry, with its evictions |
| SemanticCache.SemanticCache.InvalidateForWrite | src/promptise/cache.py:1215-1232 | bumps the generation and empties the scope in one step, or does nothing |
| SemanticCache.SemanticCache.PurgeUser | src/promptise/cache.py:1261-1264 | drops exactly the scoped user's partition and returns its size |
| SemanticCache.SemanticCache.NewEntry | src/promptise/cache.py:1188-1205 | an entry carries what it was stored with, and verifies against its own checksum |
| SemanticCache.SemanticCache.StoredIsFound | src/promptise/cache.py:1107-1205 | a stored entry serves a query exactly under the context, model and instructions it was stored with, above the threshold, until its time is over |
| SemanticCache.SemanticCache.Scope | src/promptise/cache.py:1369-1409 | a scope key is never the empty string, on which global eviction would not end |
| SemanticCache.ToolCallWatcher.constructor | src/promptise/cache.py:1618-1632 | reads the generation of the caller's scope when the watcher is created |
| SemanticCache.ToolCallWatcher.OnToolStart | src/promptise/cache.py:1637-1647 | records the tool as running and as called |
| SemanticCache.ToolCallWatcher.Finished | src/promptise/cache.py:1655-1658 | a finished or failed write tool invalidates the caller's scope |
| SemanticCache.ToolCallWatcher.Settle | src/promptise/cache.py:1660-1675 | the generation grows by the number of unseen writes in the output and the scope is emptied if there is one; nothing else changes; exactly the turns without write or gated tools may be stored, tool turns only by policy |
| SemanticCache.SemanticCache.IsWriteTool | src/promptise/cache.py:1038-1052 | a write exactly if a write pattern matches, or no read-only pattern does, the tool is not built in and it is not annotated read-only |
| SemanticCache.ToolCallWatcher.IsWrite | src/promptise/cache.py:1634-1635 | the same with the agent's annotations: a tool without one is a write |
| SemanticCache.ToolCallWatcher.InvalidateEach | src/promptise/cache.py:1670-1671 | the loop invalidates the caller's scope once for each unseen write |
| SemanticCache.ToolCallWatcher.Judge | src/promptise/cache.py:1672-1675 | the verdict over all tools called, seen or not |
| SemanticCache.ToolCallWatcher.Unseen | src/promptise/cache.py:1667-1669 | collects the write tools that appear only in the output |
| SemanticCache.PurgeIsExact | src/promptise/cache.py:1241-1264 | after a purge a caller's partition is empty if its scoped id is the purged one and it has no session, and unchanged otherwise |
| SemanticCache.TenantedPurgeIsExact | src/promptise/cache.py:1241-1264 | purging a tenant's user empties exactly that caller's user partition; every other caller's is unchanged, or the hash collides |
| CacheRequests.NoStaleAnswer | src/promptise/cache.py:1161-1232 | no lookup after a write's invalidation returns the answer of a request whose watcher was created before it, in any interleaving |
| CacheRequests.RunKeepsInv | src/promptise/cache.py:1054-1232 | in every reachable state each entry's request read the generation that is still current and its turn was storable |
| CacheRequests.NextKeepsInv | src/promptise/cache.py:1161-1232 | every atomic step keeps that invariant |
| CacheRequests.ServedTurnsAreSafe | src/promptise/agent.py:1088-1122 | no tool that started in the turn behind a served answer, or was found in its output, is a write or approval-gated, and there is none at all unless tool turns are cached |
| CacheRequests.Served | src/promptise/cache.py:1632-1675 | the request behind a served answer belongs to the partition looked up and is current |
| CacheRequests.SettleInvalidates | src/promptise/cache.py:1660-1675 | settling adds to the generation the number of output positions with a write tool that did not start in the turn; if there is one, the scope is empty, every other scope untouched and the turn refused; if there is none, the cache is unchanged |
| CacheRequests.ToolEndInvalidates | src/promptise/cache.py:1649-1658 | a running write tool that ends adds one to the generation and empties the scope; any other end of a tool leaves the cache alone |
| CacheArrival.CachedSinceArrival | src/promptise/agent.py:945-1050 | no write has landed in the partition since a cached answer's request arrived if and only if none landed before its watcher was created |
| CacheArrival.ServedSinceArrival | src/promptise/agent.py:945-1050 | the same of an answer that is served |
| CacheArrival.WriteIsMissed | src/promptise/agent.py:945-1050 | a run, for every policy with a write tool, in which a request already running stores its answer after a write |
| CachePurge.RefillIsExact | src/promptise/cache.py:1161-1207 | an earlier request's answer can come back after a purge if and only if, when the purge came, it had no watcher yet, or no write had outdated it and its turn might still be stored |
| CachePurge.PurgeIsFinal | src/promptise/cache.py:474-485 | a purge is final, over every continuation, if and only if no earlier request can still store in the partition |
| CachePurge.PurgeIsOvertaken | src/promptise/cache.py:474-485 | a run in which a purged partition can fill again, under every policy |
| CachePurge.ServedAfterPurge | src/promptise/cache.py:474-485 | whatever is served from a partition after its purge was stored after the purge |
| CachePurge.CouldStore | src/promptise/cache.py:1161-1207 | no step lets a request store that could not before |
| CacheRequests.RunLater | src/promptise/cache.py:950-952 | along a run generations only grow, and requests keep the scope and generation they read |
| ScopeKeys.SanitizeScopeId | src/promptise/cache.py:1310-1315 | a sanitized id has no colon and no slash, and is empty only for blank input |
| ScopeKeys.SanitizeKeeps | src/promptise/cache.py:1310-1315 | sanitizing strips and replaces the two delimiters and changes nothing else; an id that needs neither is kept |
| ScopeKeys.MaterialDecodes | src/promptise/cache.py:1350-1354 | the length-prefixed material decodes to its two parts wherever colons fall |
| ScopeKeys.TenantedDisjoint | src/promptise/cache.py:1318-1356 | tenanted and untenanted ids never meet, whatever the hash |
| ScopeKeys.TenantedInjective | src/promptise/cache.py:1318-1356 | equal tenanted ids are the same tenant and user, or a hash collision |
| ScopeKeys.PartitionIdentity | src/promptise/cache.py:1369-1409 | two callers share a partition if, and up to a hash collision only if, they are the same scoped user in the same session |
| ScopeKeys.PartitionOfCaller | src/promptise/cache.py:1318-1409 | the same in terms of tenant, user and session, naming the two hashes that can collide |
| ScopeKeys.KeyExists | src/promptise/cache.py:1376-1409 | a request has a partition exactly in a shared cache or for a caller with a nonblank user id |
| ScopeKeys.SharedIsOne | src/promptise/cache.py:1376-1378 | a shared cache has one partition for everyone |
| ScopeKeys.PerUserIgnoresSessions | src/promptise/cache.py:1386-1392 | per user, sessions make no difference |
| ScopeKeys.PerSessionFallsBack | src/promptise/cache.py:1394-1407 | per session, a caller without a session has the user's partition, and one with a session never has |
| ScopeKeys.PerSessionSeparates | src/promptise/cache.py:1394-1405 | per session, two sessions of one user have two partitions, or the hash collides |
| ScopeKeys.PurgeHits | src/promptise/cache.py:1252-1264 | a purge hits a caller's partition exactly when it is that user's, without a session |
| ScopeKeys.IsolationKeyInjective | src/promptise/agent.py:85-126 | on validated callers the isolation key identifies tenant and user |
| ScopeKeys.TenantedKey | src/promptise/agent.py:95-126 | the first colon of a tenanted key ends the tenant |
| ScopeKeys.DoubleColonCollides | src/promptise/agent.py:102-126 | why a user id must be free of "::": every such untenanted user is rejected, and would have the key of the accepted tenanted caller it spells |
| ScopeKeys.ColonAtBoundaryCollides | src/promptise/agent.py:102-112 | why a tenant must be free of colons: a colliding pair that the validation rejects |
| RequestIds.RequestIdCache.Claim | src/promptise/approval.py:193-214 | refused exactly while the id is live; the new dictionary is `AfterClaim` and never above its size |
| RequestIds.RequestIdCache.Prune | src/promptise/approval.py:184-191 | drops the expired items at the front and no others |
| RequestIds.RequestIdCache.Contains | src/promptise/approval.py:216-219 | true exactly while the id is live |
| RequestIds.RequestIdCache.Length | src/promptise/approval.py:221-224 | prunes, and never exceeds `max_size` |
| RequestIds.RequestIdCache.DropOldest | src/promptise/approval.py:212-213 | the size loop keeps exactly the newest `max_size` ids |
| RequestIds.PrunedLive | src/promptise/approval.py:184-191 | pruning never changes which ids are live |
| RequestIds.SingleUse | src/promptise/approval.py:184-224 | two successes of one id are at least its lifetime apart, or `max_size` other ids were claimed between them |
| RequestIds.Remembered | src/promptise/approval.py:204-214 | after a success the id stays live for the claim's own lifetime if that is positive, and else the cache's, unless `max_size` other ids were claimed |
| RequestIds.LiveWasClaimed | src/promptise/approval.py:204-219 | a live id has an earlier success whose lifetime is not over |
| RequestIds.RefusedOnlyWhileLive | src/promptise/approval.py:204-214 | a refusal has an earlier success of that id that has not expired |
| RequestIds.RunBounded | src/promptise/approval.py:210-214 | ids are distinct and never more than `max_size`, throughout every run |
| Denials.DenialTracker.CountOf | src/promptise/approval.py:932-943 | returns the denials inside the window and prunes the others |
| Denials.DenialTracker.Record | src/promptise/approval.py:945-950 | adds a denial, moves the key last and drops the least recently denied keys |
| Denials.DenialTracker.Clear | src/promptise/approval.py:952-954 | forgets one key |
| Denials.CountIsWindowed | src/promptise/approval.py:932-950 | the count equals the denials since the last reset inside the window, although pruning is permanent |
| Denials.StoredAgrees | src/promptise/approval.py:932-954 | stored times and full history agree on every window from now on |
| Denials.FewKeysNeverDisplaced | src/promptise/approval.py:925-950 | with at most `MAX_KEYS` denied keys that history is every denial since the last approval |
| GateLocks.MutualExclusion | src/promptise/approval.py:968-979 | all tasks inside a key share one lock and at most one runs the block |
| GateLocks.TableIsExact | src/promptise/approval.py:968-979 | a key is in the table exactly while tasks are in it, counted exactly; the table is empty when nobody is |
| GateLocks.NoLostLock | src/promptise/approval.py:968-979 | when nobody runs the block, every waiting task can be granted its lock |
| GateLocks.StepKeepsInv | src/promptise/approval.py:968-979 | entering, acquiring, leaving and being cancelled keep the lock-table invariant |
| QueueHandler.QueueApprovalHandler.SubmitDecision | src/promptise/approval.py:585-608 | accepts, or raises as a replay or as unknown, exactly as `SubmitReply`; only an acceptance resolves the future |
| QueueHandler.QueueApprovalHandler.RegisterRequest | src/promptise/approval.py:620-625 | refuses an id that is pending or decided, else adds it to both dictionaries |
| QueueHandler.QueueApprovalHandler.WithdrawRequest | src/promptise/approval.py:633-636 | takes the id out of both dictionaries |
| QueueHandler.OpenIsAccepted | src/promptise/approval.py:599-608 | in every run a submission is accepted exactly for an open pending request: `claim` cannot refuse it; both dictionaries have the same keys |
| QueueHandler.AtMostOneAccepted | src/promptise/approval.py:585-608 | at most one decision is accepted for one pending request |
| QueueHandler.DeliversTheAccepted | src/promptise/approval.py:585-636 | what `request_approval` returns is that one decision, no other is ever accepted for it, and until it returns every other submission is a replay |
| QueueHandler.OneDecisionPerId | src/promptise/approval.py:569-574 | two accepted decisions of one id are the timeout of the first one's request apart (a day if that is not positive), or ten thousand other ids were decided between them |
| QueueHandler.DecidedIsRemembered | src/promptise/approval.py:599-623 | for that long a decided id can neither be asked about again nor be unknown: another decision for it is a replay |
| QueueHandler.TimeoutAsAsked | src/promptise/approval.py:605-625 | the timeout a decision is remembered for is the one the request came with |
| QueueHandler.RequestIsPending | src/promptise/approval.py:620-625 | a request is refused exactly when its id is pending or remembered; otherwise it is pending, open, with its timeout, and nothing else changes |
| QueueHandler.FinishLeaves | src/promptise/approval.py:633-636 | a task that resumes takes its id off both dictionaries and leaves every other one |
| QueueHandler.ReplayWasAccepted | src/promptise/approval.py:599-607 | a decision for an id that is not pending is a replay only if one was accepted for it before, and else unknown |
| QueueHandler.ResolvedWasAccepted | src/promptise/approval.py:605-608 | a resolved future holds a decision accepted earlier for that task |
| ApprovalGate.GateState.Start | src/promptise/approval.py:1323-1381 | denies a full gate, exhausted retries and a used id, in that order, else counts one more question |
| ApprovalGate.GateState.Resolve | src/promptise/approval.py:1409-1465 | what each end of the wait does to the pending count, the denials and the used ids, and the final decision |
| ApprovalGate.PendingIsExact | src/promptise/approval.py:1329-1458 | `pending` is the number of questions in flight, at most `max_pending`, and the clamp at zero never acts |
| ApprovalGate.RunsOnlyWhenGranted | src/promptise/approval.py:1247-1318 | the inner tool runs only after a question was asked and approved, or allowed on timeout, for an unused id |
| ApprovalGate.OneDecisionPerId | src/promptise/approval.py:1460-1465 | two grants of one id are a timeout apart, or ten thousand other ids were decided between them, so an id does not run the tool twice while it is remembered |
| ApprovalGate.RunsAtMostOnce | src/promptise/approval.py:1201-1321 | the companion for one call: it does not go back to its question or its run, so it runs its tool at most once |
| ApprovalGate.AskedBelowLimit | src/promptise/approval.py:1344-1350 | the handler is asked only below the retry limit, and only reviewer denials and denying timeouts count towards it |
| GateLimits.LimitIsExact | src/promptise/approval.py:1344-1369 | a call that finds room is refused for retries if and only if the run's own history (reviewer denials and denying timeouts since the last approval) has at least the limit inside the window |
| GateLimits.HistoryIsTracked | src/promptise/approval.py:1412-1456 | that history, read off how the calls ended, is what the tracker has kept |
| GateLimits.FewKeysAreKept | src/promptise/approval.py:925-950 | with at most ten thousand tools and callers nothing falls out of the history |
| GateLimits.FullIsExact | src/promptise/approval.py:1329-1342 | a call is refused for room exactly when `max_pending` questions are out |
| GateLimits.UsedWasDecided | src/promptise/approval.py:1378-1380 | an id refused as used was decided less than the policy's timeout ago |
| GateLimits.DecidedIsNotAsked | src/promptise/approval.py:1378-1465 | a decided id is not asked about again for the policy's timeout, unless ten thousand other ids were decided |
| GateLimits.ResolutionIsExact | src/promptise/approval.py:1409-1465 | what each end of the wait decides: the handler's decision, the timeout policy, a denial for an error or a used id, nothing for a cancellation |
| GateLimits.StartIsExact | src/promptise/approval.py:1247-1287 | a call that is asked waits and is counted; any other is denied by the gate and not counted |
| GateLimits.EndIsFinal | src/promptise/approval.py:1260-1287 | once a call is denied to its agent, or its wait is cancelled, it is neither resolved again nor run for the rest of the run |
| SequentialGate.OneQuestionPerKey | src/promptise/approval.py:1381-1411 | with `sequential=True` at most one question per order key is out at any time of any run |
| SequentialGate.AnswersAreToQuestions | src/promptise/approval.py:1381-1465 | every answer is to a question whose call holds the lock; the lock table has exactly the pending calls and is empty with them |
| SequentialGate.QueuedCanBeAsked | src/promptise/approval.py:1384-1411 | a queued call whose order key has no question out can be asked |
| SequentialGate.MoveKeepsInv | src/promptise/approval.py:1381-1458 | every joint step keeps the gate's count and the lock table's invariant together |
| Conversation.ParseConversation | src/promptise/context_engine.py:693-717 | the parsing loop computes `Parse` |
| Conversation.RolePrefixes | src/promptise/context_engine.py:700-711 | the eight prefixes, whose message each starts, and that the rest of the line is its content |
| Conversation.OtherLinesContinue | src/promptise/context_engine.py:700-716 | every line with none of them is a continuation |
| Conversation.LineByLine | src/promptise/context_engine.py:697-716 | what a blank line, a prefix with and without text, and a continuation do to the messages |
| Conversation.ParsePrint | src/promptise/context_engine.py:684-717 | printable messages parse back from their own print, equal exactly when none is a system message |
| Conversation.ParsePrintParse | src/promptise/context_engine.py:684-717 | parse, print, parse is stable on every text, up to system messages that come back as the assistant's |
| Conversation.ParseFirstLine | src/promptise/context_engine.py:700-711 | the first line of a printed message starts that message |
| Conversation.ExchangesPartition | src/promptise/context_engine.py:666-675 | grouping keeps every message in order, and only the last group may lack the assistant's answer |
| Conversation.GroupExchanges | src/promptise/context_engine.py:666-675 | the grouping loop computes `Exchanges` |
| Conversation.Removed | src/promptise/context_engine.py:677-682 | the shortest run of oldest exchanges that saves enough, or all of them |
| Conversation.TrimConversation | src/promptise/context_engine.py:653-691 | the trimming method computes `Trim`: the text left and the tokens counted as saved |
| Conversation.TrimLeavesExchanges | src/promptise/context_engine.py:653-691 | what is left parses to whole exchanges: those after the shortest prefix that saves enough |
| ContextTrim.FindPrefix | src/promptise/context_engine.py:625-632 | the binary search loop computes `Search` |
| ContextTrim.SearchWithin | src/promptise/context_engine.py:625-632 | the prefix found is within the target, for every tokenizer |
| ContextTrim.SearchLongest | src/promptise/context_engine.py:625-632 | for a monotone tokenizer no longer prefix is |
| ContextTrim.CandidatesAscend | src/promptise/context_engine.py:599-603 | exactly the optional nonempty layers are candidates, once each, by ascending priority |
| ContextBudget.TruncatedKeepsPrefix | src/promptise/context_engine.py:623-633 | a truncation is the longest fitting prefix, right-stripped, and an ellipsis |
| ContextBudget.TruncatedOvershoot | src/promptise/context_engine.py:623-637 | the ellipsis costs at most one token over the target |
| ContextBudget.TruncatedMeetsTarget | src/promptise/context_engine.py:623-637 | one truncation meets its target if and only if the stripped prefix leaves three characters of room |
| ContextBudget.EllipsisOvershoots | src/promptise/context_engine.py:633-637 | a truncation that ends one token above its target |
| ContextBudget.ParsedSize | src/promptise/context_engine.py:693-717 | parsed contents, with four characters a message, fit in the text |
| ContextBudget.RemovingAllSavesAtMost | src/promptise/context_engine.py:677-682 | removing every exchange never counts more than the text's tokens, for any text |
| ContextBudget.ReprintSavesAtMost | src/promptise/context_engine.py:677-691 | where the reprint is no longer than the text, what counts as saved never exceeds what is freed |
| ContextBudget.SavedIsTokens | src/promptise/context_engine.py:677-682 | what counts as saved is the tokens of the messages removed |
| ContextBudget.CanonicalIsFair | src/promptise/context_engine.py:653-691 | text no shorter than its own reprint meets the fairness condition |
| ContextBudget.FairIsExact | src/promptise/context_engine.py:653-691 | a conversation is fair if and only if every assembly around it, whatever the other layers, meets the bound under every budget |
| ContextBudget.ShortPrefixesAreUnfair | src/promptise/context_engine.py:684-691 | a text and a budget for which trimming ends two tokens over |
| ContextBudget.CutBound | src/promptise/context_engine.py:605-639 | one cut empties the layer without over-counting, or reaches the budget within a token |
| ContextBudget.CutKinds | src/promptise/context_engine.py:605-639 | which of the cuts a layer gets and what each leaves, counts and reports: only an oldest-first layer named conversation loses exchanges, and is listed only if it saved something |
| ContextBudget.BudgetBound | src/promptise/context_engine.py:587-651 | the layers left are within one token of the budget, or all optional ones are empty; when the budget itself is met is `ContextFit.TrimmingFits` |
| ContextFit.TrimmingFits | src/promptise/context_engine.py:587-651 | what trimming leaves is within the budget itself if and only if the layers fit: one after the other they absorb the overflow, ellipses and reprinted conversations included |
| ContextFit.CountedFits | src/promptise/context_engine.py:587-651 | without a conversation the total that trimming returns is the real one, and meets the budget on the same condition |
| ContextFit.CutEnds | src/promptise/context_engine.py:605-639 | where each kind of cut ends, to the token |
| ContextFit.EllipsisEndsOver | src/promptise/context_engine.py:589-639 | one layer and a budget for which trimming ends a token over |
| ContextFit.OvershootAbsorbed | src/promptise/context_engine.py:605-639 | a truncation that misses its target in a trimming that meets its budget |
| ContextBudget.TrimsInPriorityOrder | src/promptise/context_engine.py:596-639 | the names listed are exactly a prefix of the optional layers by ascending priority; all other layers are untouched; it stops early only within budget |
| ContextEngine.ContextEngine.Assemble | src/promptise/context_engine.py:451-585 | refuses unknown names; otherwise messages and report are those of the trimmed layers, and the registry does not change |
| ContextEngine.ContextEngine.AddLayer | src/promptise/context_engine.py:383-410 | replaces or appends one layer, with its priority clamped to 0..10 |
| ContextEngine.ContextEngine.TrimActive | src/promptise/context_engine.py:587-651 | the trimming loop computes `TrimLayers` |
| ContextEngine.ContextEngine.CutNext | src/promptise/context_engine.py:609-639 | one iteration of the loop, all three branches |
| ContextEngine.RegisteredUnique | src/promptise/context_engine.py:403-410 | registering replaces the layer of that name, keeps all others, and keeps names unique |
| ContextAssembly.ActiveFacts | src/promptise/context_engine.py:486-497 | the active layers are the nonempty ones by descending priority |
| ContextAssembly.TrimKeeps | src/promptise/context_engine.py:587-651 | trimming changes nothing but content, and never a required layer, for every tokenizer |
| ContextAssembly.ReportIsTotal | src/promptise/context_engine.py:508-574 | the report accounts for every layer left, sent or budget-only |
| ContextAssembly.AssemblyWithinBudget | src/promptise/context_engine.py:451-574 | the reported total is within one token of the budget, or only required layers are listed; the exact condition for the budget itself is `ReportMeetsBudget` |
| ContextAssembly.ReportMeetsBudget | src/promptise/context_engine.py:499-574 | the reported total is within the budget itself if and only if the active layers fit it |
| ContextAssembly.RequiredIsExact | src/promptise/context_engine.py:101-104 | a layer is untouched in every assembly under every budget if and only if it is required |
| ContextAssembly.PriorityNineIsDropped | src/promptise/context_engine.py:334 | the built-in layer of priority 9 that is not required is emptied |
| ContextAssembly.CanonicalWithinBudget | src/promptise/context_engine.py:451-574 | the same for conversation text no shorter than its own reprint |
| ContextAssembly.SystemMessagesFirst | src/promptise/context_engine.py:517-554 | system messages come first, by descending priority, and budget-only layers are not sent |
| ContextAssembly.MessagesExactly | src/promptise/context_engine.py:508-566 | the whole list: a system message for each ordinary layer sent, by descending priority, then what the sent conversation parses to, then the user's message, and nothing else |
| ContextAssembly.ReportExactly | src/promptise/context_engine.py:536-574 | the report lists exactly the nonempty layers left, with cost, whether trimmed and whether sent |
| ContextAssembly.OverriddenIsActive | src/promptise/context_engine.py:487-497 | a layer takes part with its override's content, or its own without one, and not at all if that is empty |
| ContextAssembly.OverridesApply | src/promptise/context_engine.py:487-491 | an override replaces the content and nothing else |
| ContextAssembly.UserMessageLast | src/promptise/context_engine.py:556-566 | the user's message is never trimmed and is the last message |
| Classifier.EvaluationIsExact | src/promptise/_approval_types.py:265-290 | when a rule matches and when it cannot be evaluated, as conditions on its filters |
| Classifier.OccursIsWithin | src/promptise/_approval_types.py:277-283 | the argument filter holds exactly if its text stands somewhere in the arguments |
| Classifier.RulesSeeRaw | src/promptise/approval_classifier.py:349-352 | rules judge the real arguments, whatever the reviewer is shown |
| Classifier.AutoApprovalClassifier.FindRule | src/promptise/approval_classifier.py:374-376 | each rule loop stops at the first rule that matches or cannot be evaluated |
| Classifier.AutoApprovalClassifier.Classify | src/promptise/approval_classifier.py:369-503 | the six layers in order, with every counter they touch |
| Classifier.AutoApprovalClassifier.AskFallback | src/promptise/approval_classifier.py:520-529 | counts the handler's answer once, unless it raises |
| Classifier.AutoApprovalClassifier.RequestApproval | src/promptise/approval_classifier.py:340-367 | an exception is counted and the handler asked once more; the trace is kept only for a request that returned |
| Classifier.RequestIsCounted | src/promptise/approval_classifier.py:340-534 | a request that returns adds exactly one to the approval or denial counters, one that raises adds none |
| Classifier.Accounting | src/promptise/approval_classifier.py:340-534 | over any sequence the seven counters add up to the requests that returned: four to the approvals, three to the denials |
| Classifier.SelfApproval | src/promptise/approval_classifier.py:369-484 | the classifier approves by itself if and only if all deny and ask rules gave a definite no and an allow rule with no failure before it, the read-only check or the LLM said yes |
| Classifier.DenyRulesWin | src/promptise/approval_classifier.py:372-409 | a deny rule that matches or fails always denies |
| Classifier.RouteIsExact | src/promptise/approval_classifier.py:369-503 | when the classifier approves, when it denies, when a person must be asked and when it fails, as conditions on rules, read-only check and LLM |
| Classifier.DecisionIsExact | src/promptise/approval_classifier.py:340-534 | whose decision comes back and what it is, with the second question after an exception |
| Classifier.CountersAreExact | src/promptise/approval_classifier.py:369-534 | what one request adds to each of the ten counters |
| Classifier.TraceIsExact | src/promptise/approval_classifier.py:369-503 | what the recorded layer says of the request |
| Classifier.OtherApprovalsAreHuman | src/promptise/approval_classifier.py:340-503 | every other approval is the fallback handler's own answer |

## Left out

- The Redis backend: its `store` suspends many times, so the generation results are about the in-memory backend only.
- Embedding providers, encryption, dependency checks, logging, events, metrics and the timeline: input and output without state of their own.
- Custom caches and `store` calls without a write generation: the agent always passes one with this cache, and the requests of the protocol do the same.
- `InMemoryCacheBackend` with a cap of 0 or an empty scope key: the eviction loop of the source raises or does not end there, so the preconditions of the class exclude both; `SemanticCache` never makes an empty key.
- Scores are real numbers: rounding, NaN and rows of different lengths are not modelled.
- Each cache operation reads the clock once, where the source may read it once for every entry.
- `ContextLayer` and `CacheEntry` objects that are shared and changed in place are values at positions of a sequence; the copies that the source makes before trimming are the reason it does not show.
- `_sanitize_scope_id` on untenanted ids: it loses information by design, so no injectivity is stated there.
- `is_read_only`, the LLM classifier and the rules' own conditions are arbitrary functions; redaction of the reviewer's copy is not modelled.
- The exact race between a timeout and a result inside `wait_for`: a timeout is a step of its own that cancels the future.
- A tool that starts after `settle` and before the store: the protocol takes no tool start from a settled turn, so such a tool is in no run and not in the verdict.
- `WebhookApprovalHandler`, MCP elicitation, reviewer edits of arguments and argument redaction: network and formatting.
- `set_content`, `clear_content`, `remove_layer`, `get_layer_info`: easy members of the registry.
- `tiktoken` counting is an arbitrary token counter; the bound itself is about the estimating counter, whose division by 3.5 is exact in the model.
- CacheRecency.EvictsLruExactly, and the same for the total cap: entries are told apart by the number of the request that produced them, so its runs store each number once; two entries of one request are not modelled.
