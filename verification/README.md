# Verified model of the keeper's coordination code

This project models, in Dafny 4.11, the parts of the keeper that have to be right
under interleaving, failure and restart, and proves what they promise:

- **Nonces.** The per-address promise chain that hands out nonces, decides after each
  failure whether to rewind, merges several readers and consults a floor on disk
  (`NonceMachine`, `NonceTracker`), with whole transactions followed from the nonce to the
  end of the job (`NonceRuns`); and the disk store shared by processes: lock file,
  locked reload, merge, temporary write, rename, unlocked reloads and the signature
  check in front of the cached map (`FloorEntries`, `StoreMachine`, `DurableNonceState`).
  `NonceFloors` says how the one is seen through the other: the nonce machine looks floors
  up in the cached map, which a failed write leaves different from the disk.
- **Route probes.** The semaphore with abort signals, a hard hold cap and a second budget
  for abandoned operations (`Limiter`), its single calls (`ProbeCalls`), and the ordered
  concurrent map (`ConcurrentMap`).
- **Pagination** against a server whose data changes between pages: the single-key loop
  (`Pagination`, over the byte order of `Keys`) and the (timestamp, id) loop (`LpAwards`).
- **Endpoints.** The circuit breaker (`EndpointHealth`) and the two failover loops that
  use it (`Failover`), with what whole requests leave on record (`FailoverRecords`).
- **Curve pools.** Selection and its cache of found and missing pools (`CurveSelection`).
- **Arithmetic, search, policy.** Decimal conversions and roundings (`Decimals`,
  `Conversions`), the fixture tool's searches (`AutoTune`), and the route-policy resolver
  (`RoutePolicy`). `Text` and `Wrappers` are shared.

## How it is modelled

Asynchronous code is a state machine: every stretch between two awaits is one step, and
the events of a run come in any order. The invariants are proved for every step, so the
main results hold in every state of every run, including runs with a crash between any
two steps. Classes (`NonceTracker.Tracker`, `Limiter.RouteProbeLimiter`,
`DurableNonceState.FloorStore`, `EndpointHealth.HealthBook`, `Failover.ReadRpcClient`,
`CurveSelection.CurvePoolSelector`) keep the program's own fields and update them as the
program does; their methods are proved to perform the machine's steps, or the
specification functions that the lemmas are about. Networks, clocks, timers and callbacks
are parameters: an oracle may succeed, fail or answer differently at every call.

What the proofs take from the environment:

- One process per signer, and no floor of a signer is touched by anyone else.
- A pending-nonce read that gets an answer is not below an earlier answer, nor below a
  publicly accepted nonce (a node that holds a transaction behind a nonce gap does not count
  it as pending, so with gaps this is an assumption about the readers). The chain id can be
  read. Both are `NonceMachine.Fair`; for each a lemma exhibits the reissue when it fails,
  and another says exactly when its failure is harmless.
- Acceptance and the marking of the floor happen while the job's transaction function runs,
  with the job's own nonce. Between acceptance and the written floor nothing is promised;
  src/process-safety.ts:30-37 documents that window.
- A lookup with a matching signature sees the file it vouches for (`StoreMachine` proves it),
  and every other lookup reloads.
- Exclusive create and rename are atomic, a rename gives the file a new signature, a
  live lock holder is done before its lock counts as stale, checking and removing a stale
  lock is one step, no rename falls between an unlocked reload's read and its stat, and an
  unlocked reload does not land while its own process is persisting a change. These are
  `StoreMachine.Fair` and its step function; `UnlockedReloadDecides` says exactly what
  becomes of an upsert when the last one fails, `UnlockedReloadLosesAnUpdate` that it can.
- `onAbandoned` does not throw.
- The server returns ordered pages with unique keys, and breaks timestamp ties by id.
  Ids and cursors are bytes, so that lower-casing their hex text changes nothing.
- Gas-price requests that run at the same time do not write the same endpoint's chain id.

Where the code does less than its surroundings suggest, the exact condition is proved:
`decimaledToWei` is exact only from one wei up (`WhenDecimaledToWeiIsExact`); the fixture
search returns an ineligible start that lies at or above the cap
(`AutoTuneBorrowAmountWad`); the add-and-divide round-up is a ceiling only above minus the
divisor or one short of a multiple (`WhenRoundUpRoundsUp`); a page cap of zero truncates
without a warning (`FixedTableIsReadInFull`); a failed write leaves its change in the
cached map under a signature that still matches the file
(`FailedWriteLeavesTheCacheAhead`, `MatchingSignatureMeansCurrent`); and a floor whose
expiry block has passed is used all the same when clearing it fails, unlike one that
expired by the clock, because that clearing stands inside the try around the block lookup
(`UsedFloorsAreAhead`).

The failed write matters for nonces. A clearing that deletes an expired floor in memory and
then fails to write it hides the floor from its process: the job fails, yet the next one is
handed a nonce below the floor on disk (`UnwrittenClearingReissues`), and a later mark of a
lower nonce keeps that old floor with its old expiry (`UnwrittenClearingOutlivesAMark`). No
other event does this (`OnlyUnwrittenClearingsLapse`, `MarksInstallTheirOwnFloor`), so the
results hold with exactly this exception: `FloorDominates` until such a clearing,
`AcceptedStaysAccepted` for runs without a clearing, written or not, of a floor that the
provider has not caught up with. A clearing that fails where the provider has caught up, or
before it has deleted anything, does no harm.

`dafny verify dfyconfig.toml` checks the whole project.

## Model

| member | source | states |
|---|---|---|
| NonceMachine.AcceptedStaysAccepted | src/nonce.ts:149-427 | along every fair run from the acceptance of a nonce on, with failures, crashes and restarts anywhere, that nonce is not handed out again as long as no clearing deletes, be it only in memory, a floor that the provider has not caught up with |
| NonceMachine.AcceptedNoncesAreNeverReissued | src/nonce.ts:149-427 | every nonce handed out is above all accepted ones that no such clearing has given up, and not below the floor on disk unless a clearing of this process has given that floor up and failed to write |
| NonceMachine.ProtectionEndsOnlyByExpiry | src/nonce.ts:365-427 | an accepted nonce loses its protection in one way: before any pending read got past it, a clearing, written or not, deletes the floor above it, and the floor weighed for that had expired |
| NonceMachine.FloorDominates | src/nonce.ts:365-427 | the stored next nonce is absent, or not below the floor on disk and not below the one the cache shows, except for a floor that a clearing of this process has given up and failed to write |
| NonceMachine.FloorsAreKept | src/nonce.ts:365-427 | the floor on disk only rises, and leaves the disk only when a pending read has reached it or a floor not below it was found expired |
| NonceMachine.FailuresNeverRewindBlindly | src/nonce.ts:168-278 | the next nonce after any started job: what the pending read and the floor shown come to, n + 1 when they could not be asked or the job succeeded, and never below n + 1 after a consumed-nonce error |
| NonceMachine.IssuesAreExact | src/nonce.ts:114-138 | a nonce handed out is the stored next one or, when none is stored, the floor that the cache showed unless it was cleared with success, and the highest pending read otherwise; its successor is stored |
| NonceMachine.UsedFloorsAreAhead | src/nonce.ts:381-426 | a floor that is used when a pending nonce is delivered is ahead of every pending read and was not seen expired, except one whose block had passed and whose clearing failed |
| NonceMachine.ClearingsAreDue | src/nonce.ts:381-415 | a clearing is under way only for a due floor, one not below the floor on disk: the caught one for a floor whose block has passed, any other for one the provider caught up with or whose time is up |
| NonceMachine.TheCacheErrsOnFailedWritesOnly | src/durable-nonce-state.ts:97-112 | the lookup differs from the disk only after a failed write: it misses a floor that was given up or caught up with, or shows one not below the floor on disk |
| NonceMachine.OnlyUnwrittenClearingsLapse | src/durable-nonce-state.ts:243-264 | within one process a floor on disk comes to be given up only by its own clearing failing between the deletion in memory and the rename |
| NonceMachine.MarksInstallTheirOwnFloor | src/nonce.ts:339-363 | a mark puts its own floor and expiry on disk exactly when no higher floor is there, which then counts as upheld, and a higher one can only be there after such a clearing |
| NonceMachine.RestartsGoByTheDisk | src/nonce.ts:37-54 | a restarted process has nothing but the disk and goes by the floor there, whatever the process before it had given up |
| NonceMachine.JobsRunOneAtATimeInOrder | src/nonce.ts:149-210 | per address at most one job body runs, jobs run in enqueue order, a job can start exactly when all before it have settled however they ended, a missing map entry means nothing is pending, and while a body runs the stored next nonce is its successor |
| NonceMachine.ReachedIsInv | src/nonce.ts:149-427 | the invariant behind these results holds in every state of every fair run |
| NonceMachine.WithoutChainIdTheFloorIsSkipped | src/nonce.ts:370-375 | with the chain id unreadable the returned value is above every accepted nonce if no floor stands above it and, unless that floor was given up, only then |
| NonceMachine.ChainIdFailureReissues | src/nonce.ts:370-375 | a run in which a privately accepted nonce is handed out again after a restart because the chain id could not be read |
| NonceMachine.StalePendingReadReissues | src/nonce.ts:292-307 | a run in which a publicly accepted nonce is handed out again because a reader answered with an old pending nonce |
| NonceMachine.UnwrittenClearingReissues | src/durable-nonce-state.ts:243-264 | a run in which an accepted nonce is handed out again, its expired floor still on disk, because the clearing failed at the write |
| NonceMachine.UnwrittenClearingOutlivesAMark | src/durable-nonce-state.ts:232-238 | a run in which a floor given up like that outlives a later mark, so that the accepted nonce is kept by an expired floor only |
| NonceMachine.WhenAnyAnswerIsHarmless | src/nonce.ts:292-427 | whatever the readers answer, a fresh read hands out the larger of the answer and the standing floor that the cache shows: harmless where that floor covers every accepted nonce, and otherwise exactly when the answer is above the highest nonce not covered |
| NonceRuns.TransactionsTakeTheirCourse | src/nonce.ts:167-194 | along every fair run without a crash: a job keeps its nonce while its function runs, only the pause is left after it returned, and after it threw the job asks for the pending nonce, for the reason it threw, until it is settled |
| NonceRuns.TransactionsSettleAsTheyEnded | src/nonce.ts:167-278 | the next nonce that the end of a transaction leaves: its successor after a return; what readers and floor come to, or the successor when they could not be asked, after a failure; and never less than the successor after a consumed nonce |
| NonceRuns.FailedTransactionsResynchronise | src/nonce.ts:222-256 | a failed transaction leaves no gap: with a best answer v and a standing floor the next nonce is the larger of the two, be it the failed one again, and the successor if nobody answers |
| NonceRuns.ConsumedNoncesAreNotReturned | src/nonce.ts:258-278 | the same after a consumed nonce, but never below the successor |
| NonceRuns.UnwrittenMarksStillCount | src/durable-nonce-state.ts:232-240 | a mark that fails at the write still counts in its own process: while the floor it shows stands, the nonce is not returned even if the function fails and the readers have not seen it |
| NonceRuns.EveryAnswerMovesOn | src/nonce.ts:292-427 | whatever is answered, and whether or not it fails, a read goes on to a later wait or is over, and then its job is settled or holds the nonce the read came to |
| NonceRuns.AnUndisturbedJobRuns | src/nonce.ts:114-207 | a job left alone is handed the stored next nonce or, when none is stored, the larger of answer and standing floor; it leaves the successor, and the map entry goes with the last job |
| NonceRuns.JobsWithoutAddressMakeWay | src/nonce.ts:114-116 | a job whose signer gives no address is over at once, changes nothing, and the next can start |
| NonceTracker.AddressesDoNotInterfere | src/nonce.ts:37-41 | however the jobs of different addresses interleave, each address ends as if it had been alone |
| NonceTracker.EveryAddressIsReached | src/nonce.ts:149-210 | in a run over many addresses each one stays within the states of the single-address results |
| NonceTracker.RegisteringAddsEachReaderOnce | src/nonce.ts:280-290 | registration keeps the known readers in order and adds each new one once |
| NonceTracker.HighestIsTheMaximum | src/nonce.ts:296-304 | the merged answer is the maximum of the readers, and negative exactly when none answered |
| NonceTracker.Tracker.RegisterNonceReaders | src/nonce.ts:280-290 | the deduplicating loop computes that registration |
| NonceTracker.Tracker.QueueTransaction | src/nonce.ts:149-210 | chains a job to the tail of its address and changes no other address |
| NonceTracker.Tracker.StartJob | src/nonce.ts:162-166 | the start of a job as one step of its address, no other changed |
| NonceTracker.Tracker.JobAddressFailed | src/nonce.ts:114-115 | a job whose signer does not give its address ends without a nonce |
| NonceTracker.Tracker.UseStoredNonce | src/nonce.ts:123-131 | hands out the stored nonce and stores its successor |
| NonceTracker.Tracker.PendingNoncesRead | src/nonce.ts:292-307 | the maximum over the readers decides between failing and going on |
| NonceTracker.Tracker.ChainIdRead | src/nonce.ts:365-376 | the step after the chain id |
| NonceTracker.Tracker.DurableFloorRead | src/nonce.ts:376-409 | the step that weighs the floor the store's cache shows: caught up, expired by time, to be checked by block, or used |
| NonceTracker.Tracker.BlockNumberRead | src/nonce.ts:404-426 | the step after the block number: on to the clearing, or the floor used |
| NonceTracker.Tracker.DurableFloorCleared | src/nonce.ts:381-427 | the step after a clearing, however far it got: not begun, deleted in memory only, on disk but failed, or done; the observed value, an exception, or for the block number the floor after all |
| NonceTracker.Tracker.PendingNonceResolved | src/nonce.ts:222-278 | what resetNonce, handleFailedNonce and reconcileConsumedNonce store |
| NonceTracker.Tracker.TransactionReturned | src/nonce.ts:168-180 | the step after a transaction function that returned |
| NonceTracker.Tracker.TransactionThrew | src/nonce.ts:181-194 | the step after one that threw, and the next nonce preserved for a consumed one |
| NonceTracker.Tracker.CleanupQueue | src/nonce.ts:197-207 | the map entry goes only while it is still this job's |
| NonceTracker.Tracker.FloorMarked | src/nonce.ts:339-363 | the running job's floor, or a higher one found there, is on disk, and its nonce is protected from then on |
| NonceTracker.Tracker.FloorNotMarked | src/durable-nonce-state.ts:232-240 | a mark that fails at the write leaves its floor in the cache only, unless a higher one is on disk |
| NonceTracker.Tracker.StoreReloaded | src/durable-nonce-state.ts:83-112 | after a reload the lookup shows the disk again |
| NonceTracker.Tracker.DelayElapsed | src/nonce.ts:174-180 | the pause after a success ends the job |
| NonceTracker.Tracker.Restart | src/nonce.ts:38-54 | a restart loses the maps of every address and the cache, and keeps the disk |
| FloorEntries.KeyForIsInjective | src/durable-nonce-state.ts:42-44 | two entries share a key exactly when chain and lower-cased address agree |
| Text.LowerForgetsCaseOnly | src/durable-nonce-state.ts:42-51 | lower-casing forgets the case of letters and nothing else |
| FloorEntries.LoadsWhatWasSaved | src/durable-nonce-state.ts:75-81 | loading a listing of well-keyed entries, in any order, gives the same map back |
| FloorEntries.LoadIsWellKeyed | src/durable-nonce-state.ts:46-51 | every loaded entry sits under its own chain and address, which is in lower case |
| FloorEntries.UpsertsKeepTheMaximum | src/durable-nonce-state.ts:232-238 | after upserts a key's floor is the highest asked for or standing before, and its entry the latest that asked for it |
| FloorEntries.UpsertOrderDoesNotMatter | src/durable-nonce-state.ts:232-238 | the same upserts in any order leave every key with the same floor |
| StoreMachine.AtMostOneHolder | src/durable-nonce-state.ts:131-208 | at most one task is in the critical section, with stale locks, crashes and release by path |
| StoreMachine.DiskIsTheOperationsInOrder | src/durable-nonce-state.ts:218-264 | the disk is the old one with the operations that took effect applied in order, each at most once and every successful one exactly once |
| StoreMachine.SuccessfulUpsertsStand | src/durable-nonce-state.ts:218-241 | under upserts alone, a successful upsert's floor is never undercut on disk |
| StoreMachine.TheFileIsOldOrNew | src/durable-nonce-state.ts:186-199 | every step, a crash included, leaves the state file alone or replaces it by one with exactly one operation more |
| StoreMachine.UnparsableFileIsNeverOverwritten | src/durable-nonce-state.ts:221-230 | an unparsable state file stays as it is |
| StoreMachine.MatchingSignatureMeansCurrent | src/durable-nonce-state.ts:97-112 | with a matching signature the cached entries are the disk's, with the process's own unwritten change on top when it has one |
| StoreMachine.UndisturbedTasksComplete | src/durable-nonce-state.ts:201-264 | an operation that finds the lock free and a readable file and is left alone takes effect, frees the lock and leaves a cache that the new signature vouches for |
| StoreMachine.AbandonedLocksAreCleared | src/durable-nonce-state.ts:131-208 | a lock that nobody holds any more is cleared once it counts as stale, and a waiting operation gets in and takes effect |
| StoreMachine.CrashesDoNotBlock | src/durable-nonce-state.ts:131-208 | a process that dies inside the critical section loses its memory and its tasks and changes nothing else, and another process's operation still gets done |
| StoreMachine.FailingTasksLetGo | src/durable-nonce-state.ts:152-208 | a failure anywhere inside the critical section leaves the file alone and frees the lock; giving up the wait changes nothing |
| StoreMachine.UndisturbedReloadsAreCurrent | src/durable-nonce-state.ts:83-129 | a reader's reload with nothing in between shows the file as it is, under the signature that vouches for it |
| StoreMachine.FailedReloadsChangeNothing | src/durable-nonce-state.ts:112-126 | a reload that fails leaves the cache as it was, and the next one can begin |
| StoreMachine.ReachedIsInv | src/durable-nonce-state.ts:97-264 | the invariant behind these results holds in every state of every fair run |
| StoreMachine.UnlockedReloadDecides | src/durable-nonce-state.ts:83-89 | if an unlocked reload lands between an upsert's change in memory and its snapshot, the upsert still reports success, and its floor is on disk exactly when the text read already had one as high, or did not parse; read from the file as it is, any floor that the upsert raises is lost |
| StoreMachine.UnlockedReloadLosesAnUpdate | src/durable-nonce-state.ts:186-194 | such a landing is within reach: a first upsert reports success with no floor at all on disk |
| StoreMachine.FailedWriteLeavesTheCacheAhead | src/durable-nonce-state.ts:232-240 | a run in which a failed write leaves the cache ahead of the disk under a matching signature |
| NonceFloors.OperationsActOnOneFloor | src/durable-nonce-state.ts:218-264 | an upsert and a clearing do to the floor of their key what the nonce machine says, and touch no other |
| NonceFloors.TheCacheShowsTheFloor | src/durable-nonce-state.ts:97-112 | the cached map under a matching signature shows the floor that the nonce machine takes it to show |
| NonceFloors.LookupsAreShown | src/durable-nonce-state.ts:210-216 | along every run of the store, a lookup under a matching signature is what the nonce machine takes the cache to show |
| DurableNonceState.FloorStore.LoadEntriesFromStateFile | src/durable-nonce-state.ts:75-81 | the loop computes the loaded map |
| DurableNonceState.FloorStore.ReloadFromDisk | src/durable-nonce-state.ts:83-89 | loads the file and its signature, or fails without touching the cache |
| DurableNonceState.FloorStore.EnsureLoaded | src/durable-nonce-state.ts:97-129 | afterwards the cache shows the disk, with a change that failed to be written on top as long as the signature matches; it fails only on an unparsable file |
| DurableNonceState.FloorStore.GetDurableNonceFloor | src/durable-nonce-state.ts:210-216 | the lookup answers from the disk as it is, with the process's own unwritten change on top after a failed write, and fails closed on an unparsable file |
| DurableNonceState.FloorStore.PersistLoadedEntries | src/durable-nonce-state.ts:186-199 | after the rename the disk loads back as the cached map; before it the file is untouched and the change stays pending |
| DurableNonceState.FloorStore.UpsertDurableNonceFloor | src/durable-nonce-state.ts:218-241 | however it ends, the disk has the whole operation or is untouched, the cache is accounted for, and when it succeeds is stated exactly |
| DurableNonceState.FloorStore.ClearDurableNonceFloor | src/durable-nonce-state.ts:243-264 | the same for a clearing; on success the key is gone from the disk, and the result says whether it was there |
| Limiter.RunningOperationsAreBounded | src/utils.ts:109-306 | in every reachable state the permits out, the abandoned operations and the operations really running stay within their bounds |
| Limiter.PermitsAreConserved | src/utils.ts:161-189 | each granted permit is given back at most once, and the permits out are the grants not given back |
| Limiter.QuiescenceLeavesNothing | src/utils.ts:137-290 | when every call is over, no permit, no abandoned operation and no waiter is left, and every grant was released |
| Limiter.ClampsNeverBind | src/utils.ts:161-175 | a counter that is decremented is positive |
| Limiter.StuckOperationsGiveTheirPermitBack | src/utils.ts:176-233 | an operation that never settles gives its permit back at the hard cap or its caller's abort, and is counted as abandoned |
| Limiter.WaitersAreServedInOrder | src/utils.ts:238-305 | first in, first out; somebody waits only while a budget is exhausted; queued waiters are unsettled |
| Limiter.TheBoundIsTight | src/utils.ts:292-305 | for every configuration a run that reaches the bound on running operations |
| Limiter.Reachable | src/utils.ts:109-306 | the invariant behind these results holds after every run |
| ProbeCalls.SettlingEndsTheCall | src/utils.ts:161-215 | when its operation settles, abandoned or not, a call is over, holds no permit and counts as abandoned no longer; its permit has come back exactly once, and the others' turn may come |
| ProbeCalls.GrantedCallsStartOrLeave | src/utils.ts:142-195 | a call whose turn has come starts its operation, unless it was aborted meanwhile: then it never starts and its permit comes back exactly once |
| ProbeCalls.AbortedWaitersLeave | src/utils.ts:248-286 | a waiter that is aborted is over without ever having been granted a permit, out of the queue, and the others wait on or are served |
| ProbeCalls.AbortedCallsDoNotEnter | src/utils.ts:238-243 | a call whose signal is aborted already throws at once and nothing else changes |
| ProbeCalls.OtherCallsEnter | src/utils.ts:286-305 | any other call waits behind those already waiting, or has its turn at once and then nobody waits |
| ProbeCalls.CallsThatAreOverStayOver | src/utils.ts:137-290 | whatever happens later, a call that is over stays as it is: one turned away is never granted a permit, and none is given back twice |
| ProbeCalls.EveryCallCanEnd | src/utils.ts:137-305 | no call is stuck: from every reachable state, if the started operations settle and the continuations run, every call comes to an end, the waiting ones included |
| Limiter.RouteProbeLimiter.Create | src/utils.ts:114-135 | the options are accepted exactly when all three are at least one |
| Limiter.RouteProbeLimiter.DrainQueue | src/utils.ts:292-305 | the loop performs the machine's drain |
| Limiter.RouteProbeLimiter.ReleasePermitOf | src/utils.ts:161-168 | one release |
| Limiter.RouteProbeLimiter.AbandonProbe | src/utils.ts:176-189 | one abandonment |
| Limiter.RouteProbeLimiter.EnterRun | src/utils.ts:238-290 | entering the queue, or throwing at once, as one step that keeps the invariant |
| Limiter.RouteProbeLimiter.FireAbort | src/utils.ts:227-286 | the abort signal before and after the grant, as one step that keeps the invariant |
| Limiter.RouteProbeLimiter.ResumeAfterAcquire | src/utils.ts:142-195 | the continuation after the grant, as one step that keeps the invariant |
| Limiter.RouteProbeLimiter.FireHardCap | src/utils.ts:217-226 | the hard hold cap, as one step that keeps the invariant |
| Limiter.RouteProbeLimiter.OperationSettled | src/utils.ts:195-215 | the operation settling, abandoned or not, as one step that keeps the invariant |
| ConcurrentMap.MapWithConcurrencyPreservingOrder | src/utils.ts:48-86 | under every schedule: success is the sequential map with each index claimed once in order, failure is some mapper's, and at most min(floor(concurrency), n) mappers run at once, and exactly that many do when none settles before every worker has had a turn |
| ConcurrentMap.RunWorkers | src/utils.ts:70-83 | the workers claim the indices in order, and none after a failure is recorded |
| ConcurrentMap.FinishedMeansMapped | src/utils.ts:70-85 | when all workers have stopped without a failure every result is its mapper's |
| ConcurrentMap.OneWorkerReportsTheFirstFailure | src/utils.ts:62-81 | with one worker the failure is the sequential map's own |
| Pagination.PaginateSubgraphCursor | src/subgraph.ts:112-147 | the loop computes the specified walk, and under changing data its result is trustworthy |
| Pagination.WalkIsTrustworthy | src/subgraph.ts:112-147 | with rows inserted and deleted between pages: strictly increasing keys, only rows really served, and no key that was there throughout is missed up to where the loop stopped |
| Pagination.WalkIsAccounted | src/subgraph.ts:122-147 | a result is returned only when every request was answered: full pages ending with a cursor, and a last one that says why it was the last; a warning exactly at the cap with a full page; an exception is that of the first failed request, or of a page size of zero |
| Pagination.FailedRequestsThrow | src/subgraph.ts:123-124 | no failure is swallowed: whatever a call that made request p would have come to, if that request fails the call throws there |
| Pagination.FixedTableIsReadUpToTheCap | src/subgraph.ts:122-145 | on a fixed table the result is exactly the first pageSize * maxPages rows, and leaving some out is never silent |
| Pagination.FixedTableIsReadInFull | src/subgraph.ts:120-145 | from the empty cursor that is the table's own prefix; truncation is silent exactly for a cap of zero on a non-empty table |
| LpAwards.GetBucketTakeLPAwards | src/subgraph.ts:654-729 | the loop over (pageTs, pageId) is the same walk over composite keys |
| LpAwards.SelectIsAfter | src/subgraph.ts:611-652 | the query's four branches select exactly the rows after the composite cursor |
| LpAwards.SentinelIncludesTheAnchor | src/subgraph.ts:668-675 | the empty start id includes every event at the anchor's own timestamp |
| LpAwards.AwardsAreTrustworthy | src/subgraph.ts:654-729 | under changing data: (timestamp, id) order without duplicates, only the signer's events from the anchor on, none missed that was there throughout up to the stop |
| LpAwards.AwardRequestsAreAccounted | src/subgraph.ts:677-726 | the same for the award query: it throws at its first failed page, and otherwise ends with a page that is not full, an event without id or timestamp, or the cap and a warning |
| LpAwards.AwardsOfAFixedTable | src/subgraph.ts:654-729 | on a fixed table exactly the signer's events from the anchor on, up to the cap and then with a warning, however many share a timestamp |
| EndpointHealth.EndpointKeyIsInjective | src/endpoint-health.ts:19-21 | the two kinds of endpoint never share an entry |
| EndpointHealth.CooldownIsAboutTheStreak | src/endpoint-health.ts:67-150 | in cooldown at a time exactly when the failure streak reached the threshold and its last failure is less than the cooldown ago; the record shows the error the history ends with and the latest success |
| EndpointHealth.OrderIsStable | src/endpoint-health.ts:76-102 | healthy endpoints first, then cooling ones, each in the configured order |
| EndpointHealth.OrderIsAPermutation | src/endpoint-health.ts:76-102 | no endpoint is lost or repeated |
| EndpointHealth.HealthBook.RecordEndpointSuccess | src/endpoint-health.ts:104-120 | the health map stays the fold of the recorded history, one success longer |
| EndpointHealth.HealthBook.RecordEndpointFailure | src/endpoint-health.ts:122-150 | the health map stays the fold of the recorded history, one failure longer |
| EndpointHealth.HealthBook.IsEndpointInCooldown | src/endpoint-health.ts:67-74 | the check agrees with that history |
| EndpointHealth.HealthBook.OrderEndpointsByHealth | src/endpoint-health.ts:76-102 | the loop over two lists computes the ordering |
| Failover.UniqueEndpoints | src/subgraph.ts:21-32 | the loop computes the list without blanks and repetitions |
| Failover.UniqueEndpointsAreTheSameSet | src/subgraph.ts:21-32 | that list has no repetitions and the same non-blank endpoints |
| Failover.UniqueKeepsTheOrder | src/subgraph.ts:21-32 | in the order in which they are first mentioned |
| Failover.RequestSubgraph | src/subgraph.ts:41-100 | the first success in health order, one failure recorded for each endpoint before it, or the last error after each was tried once |
| Failover.EachEndpointIsRecordedOnce | src/subgraph.ts:41-100 | one request records each tried endpoint once and no other |
| FailoverRecords.TheFirstSuccessAnswers | src/subgraph.ts:59-100 | the first endpoint that does not fail answers and is the last one tried; when all fail the last error is thrown |
| FailoverRecords.OutcomesAreRecorded | src/subgraph.ts:66-86 | each endpoint tried before the answer gains exactly one failure, at its own time and with its own error, the answering one exactly one success, and the others nothing |
| FailoverRecords.ThreeFailuresCoolDown | src/subgraph.ts:80-86 | an endpoint that fails in three requests in a row is in cooldown exactly until thirty seconds after its last failure, whatever happened before |
| FailoverRecords.AnAnswerEndsTheCooldown | src/subgraph.ts:66-74 | an endpoint that answers is not in cooldown any more |
| Failover.PriceIsFromTheExpectedChain | src/read-rpc.ts:108-122 | a gas price comes from the caller's own provider, tried first, or from an endpoint on the expected chain |
| FailoverRecords.WhoIsAskedForThePrice | src/read-rpc.ts:83-102 | which urls are asked for the gas price: the configured read urls and no other; without any, the caller's own provider in front and the configured endpoint |
| FailoverRecords.EveryEndpointIsJudged | src/read-rpc.ts:105-122 | what each endpoint comes to: its price if it is the caller's own, tried first, or on the expected chain; an error naming its chain if not; its own error if its chain is neither known nor reported |
| Failover.LearntIdsAreReported | src/read-rpc.ts:59-76 | recorded chain ids are never replaced, new ones are what their endpoint reported, and what an endpoint that was asked has reported is recorded |
| Failover.ReadRpcClient.GetReadProviderChainId | src/read-rpc.ts:59-76 | the cached id, or the reported one and then cached |
| Failover.ReadRpcClient.GetResilientReadGasPrice | src/read-rpc.ts:78-155 | the answer, the recorded health events and the learnt chain ids of the whole loop |
| CurveSelection.ScanExplains | src/dex/curve-pool-selection.ts:124-177 | what the coin probe returns about the coins it read: both tokens at distinct indices, or lacking, malformed or unknown |
| CurveSelection.DiscoverTokenIndices | src/dex/curve-pool-selection.ts:124-177 | the probe loop computes that scan |
| CurveSelection.AddMissingCovers | src/dex/curve-pool-selection.ts:261-303 | scan mode lists every configured pool |
| CurveSelection.AddMissingExtends | src/dex/curve-pool-selection.ts:285-302 | it keeps the keyed pool in front and lists no pool twice |
| CurveSelection.AddMissingAddsConfigured | src/dex/curve-pool-selection.ts:285-302 | it lists nothing but configured pools |
| CurveSelection.TheKeyedPoolIsTheOperators | src/dex/curve-pool-selection.ts:267-283 | the keyed pool is the one the operator keyed under the two tokens' own symbols, in the order of the lookup or else in the other, and is found whenever there is one |
| CurveSelection.SymbolsAreTheTokensOwn | src/dex/curve-pool-selection.ts:76-92 | the symbol found is that of the first entry with the token's address but for case, and empty when no entry has it |
| CurveSelection.TokensAreLookedUpAsThemselves | src/dex/curve-pool-selection.ts:94-99 | a token is looked up by its own coin and no other, native ETH by that of wrapped ETH where one is configured |
| CurveSelection.CandidatesAreTheEligiblePools | src/dex/curve-pool-selection.ts:261-303 | the candidates are the keyed pool, in front, and with the scan every configured pool, each once, and nothing else |
| CurveSelection.SearchIsRight | src/dex/curve-pool-selection.ts:224-338 | in terms of the configuration and the coins read: a selected pool is eligible and holds the pair at two different positions, "no pool" means every eligible supported pool was read and lacks the pair, and an error names an eligible pool whose probing was cut off |
| CurveSelection.EthAndWrappedEthAreOneCoin | src/dex/curve-pool-selection.ts:94-99 | native ETH is looked up as wrapped ETH, and no pool is selected between the two |
| CurveSelection.JudgedByItsCoins | src/dex/curve-pool-selection.ts:305-338 | a pool is accepted only for coins that hold both normalised tokens, rejected only when they do not, passed over exactly for its type, and unknown only for a transport error |
| CurveSelection.SearchTakesTheFirst | src/dex/curve-pool-selection.ts:224-259 | the selected pool is the first candidate that is not definitively negative or malformed, and an unknown one ends the search with an error |
| CurveSelection.CacheKeyIsInjective | src/dex/curve-pool-selection.ts:340-346 | for addresses without colons, two lookups share a key string exactly when mode, direction and lower-cased tokens agree |
| CurveSelection.RememberKeepsTheNewest | src/dex/curve-pool-selection.ts:363-380 | the cache keeps one entry per key, the newest ones, and at most 512 |
| CurveSelection.PruneToMaxSize | src/utils.ts:22-30 | the loop drops the oldest entries until the size fits |
| CurveSelection.CurvePoolSelector.FindPoolForTokenPair | src/dex/curve-pool-selection.ts:224-259 | the loop over the candidates is the specified search, and its answer is right |
| CurveSelection.CurvePoolSelector.ResolvePoolSelection | src/dex/curve-pool-selection.ts:199-222 | a live entry of the key answers and nothing changes; otherwise the answer is the search among this moment's coins, and right, remembered last with its time to live, or a failure that caches nothing; every answer is that of a completed search less than five minutes (found) or thirty seconds (none) old |
| CurveSelection.CurvePoolSelector.Lookup | src/dex/curve-pool-selection.ts:348-361 | the hit is the live entry of the key, from a completed search younger than its time to live; a miss removes an expired one |
| CurveSelection.CurvePoolSelector.Store | src/dex/curve-pool-selection.ts:363-380 | stores the result of a completed search with the time to live of its kind |
| CurveSelection.SymbolIgnoresCase | src/dex/curve-pool-selection.ts:76-92 | symbols are found whatever the case of the address |
| CurveSelection.KeyedLookupsStayKeyed | src/dex/curve-pool-selection.ts:199-303 | without scanning, a pool that is returned is one the operator keyed for that very pair, also through the cache |
| Decimals.DigitsHaveTheirValue | src/utils.ts:583-583 | the decimal text of a number stands for it |
| Decimals.AppendingZerosMultiplies | src/utils.ts:585-587 | appending zeros multiplies by a power of ten |
| Decimals.DroppingDigitsDivides | src/utils.ts:588-591 | dropping digits divides by a power of ten, rounding down |
| Conversions.TokenChangeIsExact | src/utils.ts:577-596 | the digit-string conversion never fails and is the arithmetic one, truncated toward zero, signs included |
| Conversions.ConversionsAgree | src/erc20.ts:213-276 | it agrees with both WAD conversions |
| Conversions.WideningThenNarrowing | src/utils.ts:577-596 | going to more decimals and back is the identity |
| Conversions.WadRoundTrip | src/erc20.ts:213-276 | fromWad after toWad is the identity up to 18 decimals, and the other way round from 18 on |
| Conversions.WadConversionsAreTheBestBounds | src/erc20.ts:213-253 | up to 18 decimals: exactly which amounts, all non-negative ones among them, go to the greatest token amount worth no more and the least worth no less, which differ by one exactly when something is cut off; above 18 decimals both are exact |
| Conversions.WhenTruncationRounds | src/erc20.ts:221-225 | the truncating division is a floor, or a ceiling, exactly for which signs and remainders |
| Conversions.WhenRoundUpRoundsUp | src/erc20.ts:244-249 | the add-and-divide round-up is the ceiling if and only if the amount is above minus the divisor or one short of a multiple |
| Conversions.WhenDecimaledToWeiIsExact | src/utils.ts:560-575 | the conversion is the exact truncated amount if and only if exponent plus decimals is not negative |
| Conversions.CeilDivIsTheLeastCover | src/utils.ts:32-39 | the least integer whose multiple covers the numerator |
| Conversions.GasBufferIsAnExactCeiling | src/utils.ts:492-497 | the least whole gas limit not below the estimate times the factor |
| Conversions.MinimumOutIsTheGreatestWithinSlippage | src/dex/swap-min-out.ts:13-39 | answers exactly for a positive quote and a slippage in [0, 100%); the greatest amount within the slippage, never above the quote, positive exactly from one unit on |
| Conversions.MinimumOutIsMonotone | src/dex/swap-min-out.ts:37-38 | a better quote never lowers the minimum, more slippage never raises it |
| AutoTune.GrowBracket | scripts/create-liquidatable-ajna-fixture-cli.ts:2040-2056 | ends with an ineligible probe and the eligible one grown from it, or with the cap seen ineligible |
| AutoTune.Bisect | scripts/create-liquidatable-ajna-fixture-cli.ts:2058-2069 | keeps an ineligible lower and an eligible upper probe while halving the distance each time |
| AutoTune.AutoTuneBorrowAmountWad | scripts/create-liquidatable-ajna-fixture-cli.ts:1986-2079 | what is returned was seen eligible if and only if the start is eligible or below the cap; from an ineligible start below the cap it is less than the last growth step over 2^18, rounded up, above the least eligible amount of a monotone simulation; and what each failure means |
| AutoTune.HalvedTimesMeansTheCeiling | scripts/create-liquidatable-ajna-fixture-cli.ts:1979-1984 | the final width is at most the first one over 2^n, rounded up |
| AutoTune.GrowthIsFivePerCent | scripts/create-liquidatable-ajna-fixture-cli.ts:2041-2045 | a growth step below the cap is five per cent, rounded down but never to nothing |
| AutoTune.AnswerIsNearTheLeast | scripts/create-liquidatable-ajna-fixture-cli.ts:2058-2078 | a final bracket of a run of the search bounds how far the answer is above the least eligible amount |
| AutoTune.ResolveSafeQuoteRemovalAmount | scripts/create-liquidatable-ajna-fixture-cli.ts:1780-1811 | the first halving that is not refused decides: returned, rethrown, or none left when all positive ones are refused |
| AutoTune.TheLargestAcceptedHalving | scripts/create-liquidatable-ajna-fixture-cli.ts:1792-1810 | for answers that depend on the amount alone it is the largest acceptable halving, and finding none means that none is acceptable |
| AutoTune.HalvedIsTheQuotient | scripts/create-liquidatable-ajna-fixture-cli.ts:1804-1804 | the k-th candidate is the maximum over 2^k |
| RoutePolicy.CheckList | src/config/route-policy.ts:274-328 | the duplicate-checking loop accepts and rejects as specified, with the error of the first offending item |
| RoutePolicy.ScanAccepts | src/config/route-policy.ts:280-295 | a list is accepted exactly when its items are supported and differ, and stands for its own names in order |
| RoutePolicy.TheFirstOffenceIsReported | src/config/route-policy.ts:274-328 | a rejected list is empty, or told by its first item that is unsupported or repeats an earlier one |
| RoutePolicy.CountExternalTakeRoutes | src/config/route-policy.ts:254-266 | the count is the number of distinct concrete routes |
| RoutePolicy.ResolveExternalTakePolicy | src/config/route-policy.ts:268-392 | the resolver with its loops and early errors computes the specified policy |
| RoutePolicy.AcceptedConfigurations | src/config/route-policy.ts:268-346 | which configurations are accepted, exactly |
| RoutePolicy.WhichErrorIsReported | src/config/route-policy.ts:268-346 | a rejected configuration gets the error of its families, else of its providers, else of the family the providers need |
| RoutePolicy.PoliciesAreConsistent | src/config/route-policy.ts:298-392 | every policy: duplicate-free lists, providers exactly with their family, direct-DEX sources only, the default one included, the right route count, and an eligible fallback only with both families configured, the selector on and net-profit ranking |
| RoutePolicy.ConfiguredListsStand | src/config/route-policy.ts:99-108 | configured lists stand as written, and an omitted provider list follows the source or LI.FI |
| RoutePolicy.DefaultsFollowTheSource | src/config/route-policy.ts:99-195 | without configured families the pool's source decides, by the table of the five supported sources; a direct-DEX source of the pool is preferred to the configured default, which counts only if it is one itself |
| RoutePolicy.ConfiguredSourcesAreFiltered | src/config/route-policy.ts:169-193 | a configured source list stands for its direct-DEX members |
| RoutePolicy.WhenTheSelectorIsOn | src/config/route-policy.ts:350-356 | the selector is on exactly when families are configured by name or at least two providers are |
| RoutePolicy.WhenTheFallbackApplies | src/config/route-policy.ts:110-151 | the gas-quote fallback is eligible if and only if it is on, both families are named, profit is maximised and only the native gas cap is set |

## Left out

- NonceMachine.Step: the accept-to-mark window is not protected by the code and no claim is made about it; `getNonce` and `resetNonce` are modelled as the queue uses them, not as the static entry points a caller could invoke outside it.
- NonceMachine.WithoutChainIdTheFloorIsSkipped: states when skipping the floor is harmless; that the chain id can be read stays an assumption of the safety results.
- NonceFloors.LookupsAreShown: for a process whose signature is the file's; the reload that any other lookup does first is the nonce machine's event CacheReloaded.
- StoreMachine.Step: the lock's release does not fail, a state file is not deleted or edited by hand, and `stat` errors other than a missing file are folded into the failing step.
- DurableNonceState.FloorStore: the awaits inside one call run without interruption, and reading a signature after a reload does not fail; StoreMachine has the interleavings, that failure, and the retry loop for the lock as single steps.
- FloorEntries.Lists: the order that `localeCompare` gives the saved entries is left open; loading does not depend on it.
- Conversions.DecimaledToWei: takes the text that `toExponential` writes, as a sign, digits and an exponent; the floating-point number behind it, infinities and `weiToDecimaled` are not modelled.
- Limiter.Step: what the caller's own promise settles with, the operation's outcome or the reason of the abandonment; the permits and the operations are modelled.
- Failover.ReadRpcClient: the cache of provider objects, and endpoint urls as printed in logs.
- EndpointHealth.HealthBook: one failure threshold and one cooldown serve both kinds of endpoint, as both loops pass the same numbers.
- CurveSelection.CurvePoolSelector: building the pool contract and telling a revert from a transport error are part of the oracle's answer.
- RoutePolicy.ResolveExternalTakePolicy: the wording of its errors, and amounts of which only the presence matters.
- Error texts, logging and telemetry everywhere; timers except as steps that may happen.
- GraphQL, ethers contracts, the Ajna SDK and the swap providers, other than as oracles.
- Config validators, deployment allowlists, kick gates, keystore handling, CLIs and reports: each check there is settled by reading one branch.
- The other subgraph queries: they call the same page loop with other field names.
