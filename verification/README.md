# Verification models of the terminal server

This project models the concurrent state machines of the terminal server and proves properties of every run of them.
`dafny verify dfyconfig.toml` checks it.

The server is single-threaded JavaScript. A stretch of code between two awaits is one step; a run is any interleaving
of steps. Answers of foreign code (tmux, PTYs, sockets, the file system, bcrypt, clocks, random draws) are arbitrary. A
JavaScript map whose order matters is a sequence of keys together with a map. Where a class of the server updates its
fields in place there is a Dafny class that does the same; its methods are proved against specification functions, and
the theorems about whole runs are about those functions.

The parts, and the files that hold them:

- Generation caches and promise-chain locks, on which the rest depends: `GenerationCaches`, `PromiseChains`.
- Stale-session cleanup: `ActivityTracker` (module ActivityTracking), `TabDocuments`, `SocketCounts`,
  `CleanupEligibility`, `StaleSessionCleaning`, and the whole protocol over all of them in `CleanupProtocol`. Its
  theorem is that a tab is killed only if, at the confirming capture, it has no socket, no bridge and no accepted
  activity at or after the cutoff. `CleanupComposition` runs it together with the tab lifecycle.
- Per-tab lifecycle and PTY bridges: `SessionLifecycle`, `LifecycleLocks`, `TerminalBridges`.
- Authentication: `RateLimiter` (module RateLimiting), `AddressBounds`, `AuthSessions`, `SocketIndex` (module
  SocketIndexing), the last two together in `AuthSystem`, and the admission queue in `EstablishmentQueue`.
- Secure JSON files: `JsonText`, `JsonPreflight`, `JsonTraversal`, `SecureJson`, `AtomicFiles`; and the tab store's
  persistence in `TabStorage`.
- Bounded concurrency and teardown: `ProbeGates`, `Teardown`.

What the proofs brought to light:

- The limiter's per-address bound holds over windows of at most `n` distinct addresses if and only if `n` is at most
  `maxAddresses` or the options make the global bucket a sufficient bound (`AddressBoundIff`). The server's own options
  do not (`ServerOptionsBreakTheBound`): 256 denied attempts from other addresses give an address a full bucket again.
- A failing clock makes `isActiveAuthority` throw and changes nothing (`ClockFailureDoesNotLatch`), while the socket
  index reads the exception as "inactive" and closes the socket of a session that is still valid
  (`ClockFailureClosesLiveSocket`; `CheckKeepsLiveOnly` and `SweepKeepsExactly` say exactly when a socket stays).
- A flush that reads the clock earlier than a mark it takes leaves that mark neither pending nor covered by the stored
  activity time (`BackwardClockUnderstates`); a run loses nothing if and only if no released flush does that
  (`ActivityIsLostIff`).
- The size check after encoding in `serializeJson` cannot fail once `preflightJson` has accepted the value
  (`LateSizeCheckNeverFires`), and the circularity check rejects nothing that the depth limit would accept
  (`CycleNone`).
- `mapConcurrent` with a concurrency of zero resolves without processing anything (`ZeroConcurrencyDoesNothing`;
  `EachIndexOnce` has the exact condition).

## Model

| member | source | states |
|---|---|---|
| GenerationCaches.AdvanceSound | apps/server/src/activity-tracker.ts:158-167 | One change strictly raises the reported generation of its own id, lowers nobody's, and keeps at most 64 tracked entries, for both kinds of cache and whichever entry is evicted |
| GenerationCaches.RunMonotone | apps/server/src/activity-tracker.ts:154-167 | Over any run of changes no reported generation goes down, and that of every changed id goes up |
| GenerationCaches.EqualReadingsMeanUntouched | apps/server/src/websocket-auth-index.ts:208-257 | Two equal readings prove that the id did not change in between, across any number of evictions |
| GenerationCaches.UntouchedTrackedKeepsReading | apps/server/src/activity-tracker.ts:59-65 | Only eviction can make an untouched id look changed |
| PromiseChains.ChainIsAFifoLock | apps/server/src/session-manager.ts:170-190 | An operation starts only after all earlier ones of its key have settled, at most one per key is running, and a key without a map entry has nothing queued, so a newcomer bypasses nobody |
| PromiseChains.FirstUnsettledCanProceed | apps/server/src/bridge-registry.ts:147-164 | The first unsettled operation of a key is running or may start, failures of earlier ones notwithstanding |
| PromiseChains.MutexMapHoldsBusyKeys | apps/server/src/session-manager.ts:182-188 | The mutex's map holds exactly the keys with unsettled operations |
| PromiseChains.ChainsSimulateQueue | apps/server/src/session-manager.ts:170-190 | Seen from any key, every run of remembered tails, with operations that reject and entries dropped early or late, moves like a lock with an explicit queue: an arrival joins at the end, a start takes the first when nothing runs, a settlement frees the lock, and forgetting changes nothing |
| PromiseChains.KeyedMutex.Enter | apps/server/src/session-manager.ts:173-182 | Arriving queues behind the present tail and becomes the tail |
| PromiseChains.KeyedMutex.Leave | apps/server/src/session-manager.ts:183-188 | Leaving settles the operation and drops the map entry exactly if no later operation is queued |
| ActivityTracking.NoActivityLost | apps/server/src/activity-tracker.ts:52-146 | Under any clock, in every run whose flushes read it in time (each mark taken is no later than the reading, made again, or saved already): each accepted mark is dirty, in flight, or in a flush the store accepted at a time no earlier than the mark, and a resolved shutdown leaves nothing dirty |
| ActivityTracking.ActivityIsLostIff | apps/server/src/activity-tracker.ts:52-146 | Under any clock, in every run: no mark is lost at any moment if and only if each stored flush, when it is released, covers the marks of its ids that were neither made again nor saved before; and at most one flush is in flight |
| ActivityTracking.StepLosesIff | apps/server/src/activity-tracker.ts:101-140 | One step loses a mark if and only if it releases a stored flush that read the clock earlier than such a mark |
| ActivityTracking.ForwardRunIsTimely | apps/server/src/activity-tracker.ts:87-122 | A clock that never goes back is always read in time |
| ActivityTracking.FailedFlushIsRetried | apps/server/src/activity-tracker.ts:103-122 | Under any clock, while the tracker accepts marks, the ids of a failed flush are dirty again after its handlers have run, a timer is armed, and the flush it starts takes them |
| ActivityTracking.BackwardClockUnderstates | apps/server/src/activity-tracker.ts:87-122 | The failing input: a flush that reads an earlier time than a lone mark it takes leaves the mark neither pending nor covered |
| ActivityTracking.ActivityTracker.MarkActivity | apps/server/src/activity-tracker.ts:52-57 | A mark is ignored after shutdown; otherwise it is recorded, the generation advances and a flush is scheduled |
| ActivityTracking.ActivityTracker.FireTimer | apps/server/src/activity-tracker.ts:87-116 | Firing takes the whole dirty set into the flight |
| ActivityTracking.ActivityTracker.HandleRejection | apps/server/src/activity-tracker.ts:109-113 | A rejected flush puts its ids back |
| ActivityTracking.ActivityTracker.FinishFlush | apps/server/src/activity-tracker.ts:114-121 | The end of a flush advances the generation of its ids and schedules the next one |
| ActivityTracking.ActivityTracker.FinishDrain | apps/server/src/activity-tracker.ts:124-140 | The shutdown's flush releases its ids and advances their generations |
| ActivityTracking.ActivityTracker.AdvanceCleanupGeneration | apps/server/src/activity-tracker.ts:158-167 | The map operations advance the cache |
| TabDocuments.BuildIsSound | apps/server/src/tab-store.ts:179-302 | A mutation is rejected exactly in the cases its checks name, and every next document has unique ids, positions equal to indices, at most the allowed number of tabs, and a revision one higher if the mutation is structural |
| TabDocuments.ReorderAllowedIffPermutation | apps/server/src/tab-store.ts:241-258 | The length, distinctness and membership checks hold exactly for permutations of the current ids at the current revision (pigeonhole) |
| TabDocuments.ReorderKeepsRecords | apps/server/src/tab-store.ts:252-258 | A reorder moves every record and changes only its position |
| TabDocuments.RevisionCountsCommits | apps/server/src/tab-store.ts:484-493 | Over any run the revision grows by the number of structural commits |
| TabDocuments.AcceptedReorderSawLatestStructure | apps/server/src/tab-store.ts:241-251 | An accepted reorder carries the revision of the latest structural commit: none came between what the caller saw and the reorder |
| TabDocuments.FlushTouchesOnlyActivity | apps/server/src/tab-store.ts:289-302 | A flush changes nothing but the activity times of the flushed tabs and leaves the revision alone |
| TabDocuments.BuildSetsDesired | apps/server/src/tab-store.ts:179-302 | Every mutation stores the desired states it names and leaves all others; a tab it creates was not there, and one it sets or removes was |
| TabDocuments.RemoveIsSound | packages/shared/src/tabs.ts:72-110 | A removal is refused exactly for an unknown id, and otherwise its document satisfies the whole schema: unique ids, positions equal to indices, the bound on the count, and a revision one higher |
| TabDocuments.RemovalKeepsRecords | apps/server/src/tab-store.ts:276-287 | A removal takes out its own record, wherever it is, and changes nothing about the others but their positions |
| SocketCounts.CountsMove | apps/server/src/websocket-auth-index.ts:131-160 | Registration and removal move the count of their own tab by one and nobody else's, and raise that tab's generation |
| SocketCounts.RemovalUndoes | apps/server/src/websocket-auth-index.ts:155-157 | A removal after a registration restores the counts, with no zero entry left behind |
| CleanupEligibility.ReadsAreWellformed | apps/server/src/cleanup-eligibility.ts:88-138 | Whatever a read returns, in its first half or its second, passes the manager's validation; it says `invalid` exactly for a bad request and `dependency_error` exactly if a capture or the runtime failed while it was needed |
| CleanupEligibility.ConfirmedIff | apps/server/src/session-manager.ts:277-305 | The confirmation leads to termination if and only if its two captures agree, report the generations of the sweep, and show the tab active, running, without sockets, bridge and pending activity, and idle since before the cutoff |
| CleanupProtocol.CleanupIsQuiet | apps/server/src/session-manager.ts:277-305 | End to end, under any clock and in every interleaving of marks, failing and succeeding flushes, registrations, tab mutations and bridge changes: `terminateIfStale` goes on to terminate only if at the confirming capture the tab is active, has no socket, no bridge and no pending activity, its stored activity time is before the cutoff, and nothing about the tab changed since the sweep's capture |
| CleanupProtocol.CleanupIsSafe | apps/server/src/session-manager.ts:277-305 | And if the clock has not gone back in the run, all accepted marks of the tab are before the cutoff, whether or not their flushes failed in between |
| CleanupProtocol.ConfirmationIsSafe | apps/server/src/cleanup-eligibility.ts:88-138 | The same for one confirmation in any state that satisfies the invariant |
| CleanupProtocol.OnlyConfirmationTerminates | apps/server/src/session-manager.ts:281-304 | No other step leads an attempt to termination |
| CleanupProtocol.StaleTabIsTerminated | apps/server/src/stale-session-cleaner.ts:190-216 | Conversely, an undisturbed sweep of a stale tab with a running session does terminate it |
| CleanupProtocol.IdleTabShowsItsMarks | apps/server/src/tab-store.ts:289-302 | If a tab is neither dirty nor in flight, its stored activity time is no earlier than any of its accepted marks |
| CleanupProtocol.StepRaises | apps/server/src/cleanup-eligibility.ts:182-194 | Every change that matters to cleanup strictly raises a generation that the captures compare (a mark, a socket coming or going, a structural commit, a tab taken into a flush or released from one, any change of its pending flag), and no step lowers one |
| CleanupProtocol.StepKeepsInv | apps/server/src/tab-store.ts:377-397 | Every step of every component under a clock that does not go back keeps the protocol's invariant, in particular that stored activity times cover the flushes the store has accepted |
| CleanupProtocol.StepKeepsBase | apps/server/src/tab-store.ts:377-397 | Every step under any clock keeps what does not depend on it, in particular that each flush the tracker awaits is in the store's queue exactly once, and that no captured generation is ahead |
| CleanupComposition.TerminationFindsNoBridge | apps/server/src/session-manager.ts:277-305 | With the protocol and the tab lifecycle run together: a termination of a stale session is decided only by the operation that holds the tab's lock and has itself begun the confirming read of this attempt, only when the tab has been quiet in the sense above (and its marks are before the cutoff, if the clock has not gone back), and at that moment the tab has no unclosed PTY bridge at all |
| CleanupComposition.TerminationIsStored | apps/server/src/session-manager.ts:527-567 | When a termination, of a stale session or not, reports success other than by its early return, the stored document says that the tab is stopped, and it has neither an owner nor an unclosed bridge |
| CleanupComposition.StepKeepsInv | apps/server/src/bridge-registry.ts:71-145 | Every step of either side keeps both invariants and the agreement of the two views: bridged tabs are those with an owner, each queued change of a desired state is the one its tab's operation waits for, and the document says what the lifecycle remembers or is about to hear |
| StaleSessionCleaning.Execute | apps/server/src/stale-session-cleaner.ts:172-220 | For any answers of the ports, one per tab id: exactly the first `maxSessions` tabs are read, in order and with the sweep's cutoff, exactly the eligible ones are passed on for termination, and the report is the count of terminations, skips and failures among these answers; a failed dependency is one failure and nobody is asked |
| StaleSessionCleaning.EveryVisitCountsOnce | apps/server/src/stale-session-cleaner.ts:196-218 | Terminated, skipped and failed add up to examined |
| StaleSessionCleaning.OnlyEligibleAreTerminated | apps/server/src/stale-session-cleaner.ts:199-211 | A termination is asked for exactly for the tabs that were read and found eligible |
| StaleSessionCleaning.RequestIsValidIff | apps/server/src/stale-session-cleaner.ts:177-203 | The reader accepts a sweep's request if and only if the cutoff is still a safe integer, which holds under every clock that is not negative |
| StaleSessionCleaning.StaleSessionCleaner.StartRun | apps/server/src/stale-session-cleaner.ts:154-170 | A run in flight is joined; otherwise exactly one begins, with the dependency failure it starts under |
| StaleSessionCleaning.StaleSessionCleaner.CancelTimer | apps/server/src/stale-session-cleaner.ts:270-281 | A callback that fires inside clearTimeout finds its timer being cancelled and starts nothing; the timer stays only if it neither fired nor could be cleared |
| StaleSessionCleaning.StaleSessionCleaner.RunNow | apps/server/src/stale-session-cleaner.ts:105-118 | Rejected exactly after shutdown or when cleanup is disabled; otherwise answers with the run in flight |
| StaleSessionCleaning.StaleSessionCleaner.FireTimer | apps/server/src/stale-session-cleaner.ts:283-288 | Only the current timer starts a run, none after shutdown, and none while another is in flight |
| StaleSessionCleaning.StaleSessionCleaner.Schedule | apps/server/src/stale-session-cleaner.ts:256-268 | Arms a timer unless there is one; a callback that fires inside setTimeout starts the next run at once |
| StaleSessionCleaning.StaleSessionCleaner.FinishRun | apps/server/src/stale-session-cleaner.ts:241-268 | The end of the run in flight records its result with its dependency failure and arms the next timer, and ends of other runs change nothing: an idle cleaner that is not shutting down always has a timer unless the scheduler refused |
| SessionLifecycle.OneLiveBridge | apps/server/src/bridge-registry.ts:71-145 | In every reachable state a tab has at most one unclosed bridge; when no operation holds the tab's lock it is the registered one; after a resolved shutdown there is none |
| SessionLifecycle.NoOwnerMeansNoBridge | apps/server/src/session-manager.ts:287-300 | A confirmation that finds no owner in the registry finds no unclosed bridge |
| SessionLifecycle.StaleTokensAreRejected | apps/server/src/session-manager.ts:206-271 | An issued token passes connect's check if and only if the tab is active and its generation has not changed since the token was issued |
| SessionLifecycle.StoppingInvalidatesTokens | apps/server/src/session-manager.ts:340-422 | An operation about to store "stopped" has already invalidated every token issued before |
| SessionLifecycle.TerminationStopsTheTab | apps/server/src/session-manager.ts:527-567 | A termination that succeeds other than by its early return leaves the tab stopped, without an owner and without an unclosed bridge |
| SessionLifecycle.StepKeepsInv | apps/server/src/session-manager.ts:481-525 | Every await-to-await step of every operation, every registry step and every shutdown step keeps the ownership and token invariants |
| LifecycleLocks.LockIsTheChain | apps/server/src/session-manager.ts:170-190 | With the lifecycle run on the promise chains of the mutex: the chain lets an operation start if and only if its tab's lock is free in the lifecycle and the operation is the first one waiting for it there |
| TerminalBridges.TerminalBridge.constructor | apps/server/src/terminal-bridge.ts:55-111 | If any subscription throws, exactly those before it are given up, in order, then the PTY is killed, and the bridge is closed |
| TerminalBridges.Create | apps/server/src/terminal-bridge.ts:55-111 | The caller gets an exception if and only if the limit is not positive or a subscription throws; in the second case the PTY has been killed, in the first nothing has been touched |
| TerminalBridges.TerminalBridge.Shutdown | apps/server/src/terminal-bridge.ts:268-310 | Acts once: every subscription is disposed of, then the PTY is killed, then the socket is closed and, if it stays open, terminated |
| TerminalBridges.RunIsOrderly | apps/server/src/terminal-bridge.ts:156-310 | In every run of output, messages, exits, closes and errors: each write and resize of the PTY follows an activity mark, each message fits the socket's queue, the end disposes of every subscription once before the PTY is killed once, and nothing happens afterwards |
| TerminalBridges.InputIsAuthenticated | apps/server/src/terminal-bridge.ts:156-197 | Input reaches the PTY if and only if it parses, names this session and is still authenticated; the bridge stays open if and only if the frame was acceptable and the PTY took it, resizes needing no authentication |
| TerminalBridges.TerminalBridge.HandleMessage | apps/server/src/terminal-bridge.ts:156-197 | The callback does what the specified step does |
| TerminalBridges.TerminalBridge.HandleOutput | apps/server/src/terminal-bridge.ts:199-230 | So does that of PTY output, which marks activity whether or not the message can be sent |
| TerminalBridges.TerminalBridge.HandleExit | apps/server/src/terminal-bridge.ts:77-88 | So does that of the PTY's exit, with its error message if the queue has room |
| RateLimiting.GlobalBound | apps/server/src/rate-limiter.ts:44-64 | Over any run, successes are at most the global capacity plus the gain of the elapsed clamped time |
| RateLimiting.AddressBound | apps/server/src/rate-limiter.ts:44-94 | The same per address over any run with at most `maxAddresses` distinct addresses and no reset of the address, in spite of eviction |
| AddressBounds.OneAddressMoreBreaksTheBound | apps/server/src/rate-limiter.ts:44-94 | With one distinct address more than buckets the per-address bound is false, by a run from the initial state, whenever both buckets can hold a token and the global one is refilled faster (drain it, let denied attempts evict the address, and take each token it gains), or the global one outlasts a round through all addresses |
| AddressBounds.AddressBoundIff | apps/server/src/rate-limiter.ts:44-94 | The exact condition, for all options the limiter accepts: windows of at most `n` distinct addresses keep the bound of every address if and only if `n` is at most `maxAddresses` or the global bucket suffices |
| AddressBounds.GlobalBucketSuffices | apps/server/src/rate-limiter.ts:44-94 | The global bucket alone bounds every address, however many there are and whatever is evicted, if some bucket never holds a token, or without refill it is less than two tokens ahead of an address bucket, or it is refilled no faster and is not ahead by more than the slower refill makes up for |
| AddressBounds.SmallerGlobalSuffices | apps/server/src/rate-limiter.ts:44-94 | In particular if its capacity and its rate do not exceed those of an address |
| AddressBounds.ServerOptionsBreakTheBound | apps/server/src/index.ts:814-819 | The server's own options (20 at 1/3, 5 at 1/12, 256 addresses) do not bound single addresses |
| RateLimiting.ConsumeIsValid | apps/server/src/rate-limiter.ts:74-103 | Tokens stay within zero and the capacity, and time never goes back, whatever the clock returns |
| RateLimiting.UsedAddressIsNotEvicted | apps/server/src/rate-limiter.ts:81-94 | An address used in such a window is not the one evicted |
| RateLimiting.LoginRateLimiter.SelectOldest | apps/server/src/rate-limiter.ts:81-94 | The eviction scan finds the least recently used address |
| RateLimiting.OldestIsLeastRecentlyUsed | apps/server/src/rate-limiter.ts:81-94 | No tracked address was used earlier than the selected one |
| RateLimiting.LoginRateLimiter.ConsumeToken | apps/server/src/rate-limiter.ts:44-64 | The in-place updates compute the specified state and answer and keep it valid |
| AuthSessions.ReasonIffExpired | apps/server/src/auth-service.ts:791-799 | A reason is given if and only if some deadline has passed, and it names the earliest one, idle before absolute before upstream when they coincide |
| AuthSessions.StepIsValid | apps/server/src/auth-service.ts:340-478 | After every operation the two maps are a bijection of at most `maxSessions` sessions with distinct generations, and idle deadlines do not exceed absolute ones |
| AuthSessions.ReachableIsValid | apps/server/src/auth-service.ts:340-478 | So they are in every state that any run of operations reaches |
| AuthSessions.CommitKeepsExactly | apps/server/src/auth-service.ts:542-576 | A commit keeps a session if and only if it has not expired and, when the live ones fill the table, some other live one comes before it by last use, creation and id |
| AuthSessions.RevocationLatches | apps/server/src/auth-service.ts:340-349 | An issued authority once found inactive is inactive ever after, with clocks going backwards and ids drawn again |
| AuthSessions.GoneForGood | apps/server/src/auth-service.ts:686-708 | No run brings back an authority that is no longer held |
| AuthSessions.ClockFailureDoesNotLatch | apps/server/src/auth-service.ts:691-698 | An exception of the clock is not an answer: the same authority can be active afterwards |
| AuthSessions.AbsoluteDeadlineIsFixed | apps/server/src/auth-service.ts:350-438 | While an authority is held its absolute deadline and creation time do not move |
| AuthSessions.RevokedAreExactlyTheRemoved | apps/server/src/auth-service.ts:699-718 | The observers are told exactly the sessions that left the table |
| AuthSessions.AuthService.Commit | apps/server/src/auth-service.ts:542-576 | Classification, eviction, removal and insertion in place compute the specified commit |
| AuthSessions.AuthService.Remove | apps/server/src/auth-service.ts:703-708 | Removal takes the session out of both maps and voids its digest |
| AuthSessions.AuthService.TouchSession | apps/server/src/auth-service.ts:394-406 | Touching moves the last use and the idle deadline of a live session, revokes an expired one, and changes nothing on a clock failure before the check |
| SocketIndexing.AdmittedIsValid | apps/server/src/websocket-auth-index.ts:85-139 | A registration that passes the checks keeps both capacities, one generation per session, and exact tab counts |
| SocketIndexing.UnregisteredIsValid | apps/server/src/websocket-auth-index.ts:145-160 | So does every removal, and no empty session entry remains |
| SocketIndexing.SessionClosedRemoves | apps/server/src/websocket-auth-index.ts:162-175 | Closing a session removes exactly its sockets, except those that stay open |
| SocketIndexing.CountsAreExact | apps/server/src/websocket-auth-index.ts:194-196 | A tab's count is the number of its registered sockets, and a tab without sockets has no entry |
| SocketIndexing.OneGeneration | apps/server/src/websocket-auth-index.ts:103-107 | All registrations of one application session carry the same authority |
| SocketIndexing.DisposedRemoves | apps/server/src/websocket-auth-index.ts:221-232 | Disposal removes every socket, except those that stay open |
| SocketIndexing.WebSocketAuthIndex.RegisterIfActive | apps/server/src/websocket-auth-index.ts:85-139 | The in-place registration, with a session closed from within when a look at the authority revokes it, computes the specified state and answer |
| SocketIndexing.RegisteringOutcome | apps/server/src/websocket-auth-index.ts:85-139 | A registration succeeds if and only if every check passes, and then adds exactly this socket; one that fails adds nothing, and removes nothing unless a look revoked the session, whose own sockets alone may then go |
| SocketIndexing.WebSocketAuthIndex.Unregister | apps/server/src/websocket-auth-index.ts:145-160 | The in-place removal computes the specified state |
| SocketIndexing.WebSocketAuthIndex.CloseSession | apps/server/src/websocket-auth-index.ts:162-169 | The loop over a copy of the session's registrations closes exactly what is specified |
| AuthSystem.IndexFollowsRevocation | apps/server/src/websocket-auth-index.ts:82-188 | In every reachable state a registered socket that never refused to leave OPEN belongs to a stored session of the same generation |
| AuthSystem.StepKeepsInv | apps/server/src/auth-service.ts:699-718 | Every operation of either component, re-entrant revocation during a registration included, keeps the two consistent |
| AuthSystem.RegisteringIsTheIndexs | apps/server/src/websocket-auth-index.ts:85-139 | With the session table answering its looks, a registration does to the index what the index's own code does with the answers |
| AuthSystem.CheckKeepsLiveOnly | apps/server/src/websocket-auth-index.ts:183-187 | One check of a registered socket keeps it if and only if the clock answers and the session has not expired at that reading |
| AuthSystem.ClockFailureClosesLiveSocket | apps/server/src/websocket-auth-index.ts:183-187 | The failing input: when the clock throws, the socket of a session that is stored and unexpired is closed, while the session stays and is active at the next reading |
| AuthSystem.SweepKeepsExactly | apps/server/src/websocket-auth-index.ts:183-187 | The loop over the captured registrations keeps a socket if and only if the clock answers at its own turn and at no turn of its session finds the session expired; what it keeps is live |
| AuthSystem.SweepExpiredKeepsExactly | apps/server/src/websocket-auth-index.ts:177-188 | The whole sweep, with the expiry pass of the session service that opens it and that a failing clock may cut short: a socket stays if and only if that pass does not expel its session and the loop keeps it |
| EstablishmentQueue.AdmissionIsBoundedAndOrdered | apps/server/src/auth-service.ts:165-311 | In every run both counters stay between zero and their caps, outstanding reservations are those taken less those released, and sessions commit in admission order, which follows from the promise tail, whatever the order in which verifications finish |
| EstablishmentQueue.RefusalTakesNothing | apps/server/src/auth-service.ts:196-311 | A call answered at once, on whichever path, has released what it reserved |
| EstablishmentQueue.ReleasedOnce | apps/server/src/auth-service.ts:727-737 | In every run the `finally` callback of an admission runs at most once, only after its operation has settled, and its reservation is given back then and not before, although the callback itself guards only one of the two counters |
| EstablishmentQueue.QuiescenceReleasesEverything | apps/server/src/auth-service.ts:590-606 | When every admission has finished nothing is counted any more |
| EstablishmentQueue.AuthAdmission.LogIn | apps/server/src/auth-service.ts:196-264 | The in-place counters follow the specified login on every path |
| JsonText.JsonStringByteLength | apps/server/src/secure-json-file.ts:575-611 | Counts the bytes of the quoted string exactly, or stops at a number that already exceeds the limit and is no larger |
| JsonText.QuotedIsEncoded | apps/server/src/secure-json-file.ts:575-611 | That count is the length of the UTF-8 encoding of the string as ECMA-262 section 25.5.2.3 quotes it |
| JsonText.QuoteRoundTrip | apps/server/src/secure-json-file.ts:575-611 | Reading the quoted string back gives the string, lone surrogates and control characters included |
| JsonText.QuoteIsWellFormed | apps/server/src/secure-json-file.ts:407-416 | Quoted text contains no lone surrogate, so encoding it replaces nothing |
| JsonText.PrintedBytes | apps/server/src/secure-json-file.ts:440-570 | The bytes counted for a tree are the length of the UTF-8 encoding of its printed text |
| JsonPreflight.ArrayIsAcceptedIffDense | apps/server/src/secure-json-file.ts:505-545 | The key count and the descriptor checks accept exactly dense arrays of plain data without other enumerable properties |
| SecureJson.Preflight | apps/server/src/secure-json-file.ts:430-573 | Terminates on every graph, cyclic or not, accepts exactly those that unfold to a tree within the depth, node, key and byte limits, and returns clones that spell this tree |
| JsonTraversal.CycleNone | apps/server/src/secure-json-file.ts:497-499 | Meeting an ancestor proves that the graph has no tree within the depth limit |
| SecureJson.AcceptedIsAcyclic | apps/server/src/secure-json-file.ts:497-499 | Chains of references from an accepted root never meet an object twice and respect the depth limit |
| SecureJson.SnapshotReads | apps/server/src/secure-json-file.ts:407-410 | Reading the snapshot gives the tree that recursion unfolds from the graph, member order included |
| SecureJson.LateSizeCheckNeverFires | apps/server/src/secure-json-file.ts:411-415 | The counted bytes equal the length of the encoded text, so the check after encoding never fails |
| SecureJson.SerializeJson | apps/server/src/secure-json-file.ts:407-416 | Returns the encoded text of the unfolded tree exactly for accepted values |
| AtomicFiles.WriteAll | apps/server/src/secure-json-file.ts:388-405 | On success the file holds exactly the bytes, however many partial writes it took; nothing else changes in between |
| AtomicFiles.ReadBounded | apps/server/src/secure-json-file.ts:365-386 | Returns the whole file or nothing, and nothing if it is larger than the maximum |
| AtomicFiles.Replace | apps/server/src/secure-json-file.ts:152-251 | At every moment the target is the old file or the complete, synced new one; `NotCommitted` leaves the file system as it was; a commit changes the target only; no handle stays open |
| TabStorage.TabStore.Persist | apps/server/src/tab-store.ts:399-458 | Memory changes exactly when the rename has happened; a crash at any point finds the old or the new document |
| TabStorage.TabStore.Mutate | apps/server/src/tab-store.ts:377-388 | A mutation ends with the built document in memory and on disk or, failing, with the old one in both |
| ProbeGates.ConcurrencyIsBounded | apps/server/src/admin-service.ts:489-599 | In every interleaving of arrivals, grants, timeouts (one inside setTimeout included), cancellations and completions, running operations are at most the permits held, those equal the active count and are at most the capacity, and someone waits only when it is used up |
| ProbeGates.StepKeepsInv | apps/server/src/admin-service.ts:541-599 | A permit is held exactly while its operation runs or is about to be announced |
| ProbeGates.PermitsComeBack | apps/server/src/admin-service.ts:515-537 | No permit is lost: when all callbacks and operations are through, none is held and nobody waits |
| ProbeGates.NoOvertaking | apps/server/src/admin-service.ts:494-513 | No later waiter is granted while an earlier one still waits |
| ProbeGates.ProbeGate.Drain | apps/server/src/admin-service.ts:520-538 | The in-place loop hands out permits as specified |
| ProbeGates.EachIndexOnce | apps/server/src/admin-service.ts:448-467 | Indices are taken in order and once each, and a call that resolves has processed all of them if and only if its concurrency is positive or there is nothing to process |
| ProbeGates.ZeroConcurrencyDoesNothing | apps/server/src/admin-service.ts:448-467 | The failing input: with a concurrency of zero the call resolves and takes no index |
| Teardown.ShutdownIsFinal | apps/server/src/index.ts:94-149 | Once shutdown is called the server is never ready again, and the teardown is performed exactly once |
| Teardown.ReadyMeansListening | apps/server/src/index.ts:94-203 | Readiness implies that listening succeeded and shutdown was never called |
| Teardown.TeardownRun.Perform | apps/server/src/index.ts:266-354 | Whenever the deadline fires and whatever throws, the four phases are started once each and in order, each with exactly its actions, one after the completion of the other unless the deadline passed, and the call fails if anything did |
| Teardown.EverythingOnce | apps/server/src/index.ts:297-325 | After that every present resource has been torn down exactly once and no absent one; and no action of a later phase came before the completion of the phase before, except after the deadline |

## Left out

- CleanupIsSafe: its last part, about marks, is for runs whose clock does not go back; a flush that reads an earlier
  time than a mark stores a time that no longer covers it (`BackwardClockUnderstates`). What holds under any clock is
  CleanupIsQuiet.
- Preflight: proxies and other objects that run code while their properties are listed are not modelled; numbers are
  opaque ASCII texts.
- AddressBoundIff: windows may begin in any valid state of the limiter; where the global bucket is refilled no faster
  than an address's, the failing window is not shown to begin in a state reached from the initial one.
- StaleSessionCleaner: settings, tab list and clock do not call back into the cleaner while a run is being started.
- TerminalBridge: its foreign calls do not call back into the bridge; loggers are left out.
- TerminationFindsNoBridge: the confirming capture and the decision on it are one step, as in CleanupProtocol; which
  of several sweeps' attempts a waiting operation belongs to is settled when it begins its confirming read.
- EachIndexOnce: an index whose value is undefined counts as processed, because the code takes and skips it.
- AddressBound: addresses are taken after normalization, and arithmetic is over the reals without rounding.
- SessionManager and BridgeRegistry as classes: their methods are interleaved at every await, so they are modelled on
  values, one function per stretch between awaits; updates in place are shown for KeyedMutex only.
- Session ids are numbers and timestamps integer milliseconds, so malformed ids, ISO parsing and the skip reason for an
  invalid timestamp do not occur; names are taken after schema validation.
- Collation order of ids is a given rank; sorting to take the first element is modelled as a scan for the minimum.
- The order of properties that JSON.stringify visits is that in which the snapshot defines them; integer-like keys come
  first in the source object already.
- Bcrypt, hashing, random tokens, CSRF digests, JWT checks, proxies' addresses, tmux, PTYs and WebSocket frames are
  arbitrary answers or opaque values.
- Rename is assumed atomic; what the directory sync achieves is reported but not modelled.
- JSON parsing when files are read back, orphan clean-up of temporary files, `syncParent` and the runtime snapshots for
  administration have no shared state worth a model.
- HTTP routes, cookies, headers, configuration, settings, credential storage, logging and the browser client.
