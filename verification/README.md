# OnionGuard, verified

OnionGuard admits anonymous web sessions one by one: a newcomer waits, then solves a challenge, then is
admitted until a deadline, and may rotate its session id. Sessions, challenges and capacity reservations
live in a key/value store with expiring keys; a leased lock serialises work on one session; token buckets
limit rates and a circuit breaker guards the store.

The project models that machinery and proves what it guarantees over whole runs.

| file | content |
|---|---|
| `Basics.dfy`, `Arithmetic.dfy` | optional values, time in nanoseconds, maps with expiring entries, integer division |
| `Sessions.dfy`, `WaitRoom.dfy`, `Quota.dfy` | records, the transition table, wait arithmetic, capacity on values |
| `Protocol.dfy` | each critical section of the engine as a function from world to outcome, with every way its store calls can fail |
| `Runs.dfy`, `Moves.dfy` | runs of the engine and their histories; every operation is one of twelve moves; what reachable states look like |
| `Effects.dfy` | what each operation accomplishes: when it succeeds, what it leaves behind, how it refuses |
| `GuessBudget.dfy`, `Attempts.dfy`, `Patience.dfy`, `Lifetime.dfy`, `Capacity.dfy`, `Legality.dfy`, `Rollback.dfy` | the theorems about runs |
| `Visits.dfy`, `GuessWitnesses.dfy`, `CapacityWitnesses.dfy` | runs that reach the two bounds in every way they allow for, and the exact configurations in which the plain budget and the capacity are kept |
| `Requests.dfy`, `Engine.dfy`, `Guard.dfy` | a whole request; the engine as a class whose every method takes a step of a run; the engine behind its breaker |
| `TokenBuckets.dfy`, `Reservations.dfy`, `Eviction.dfy`, `MemoryStore.dfy` | the store's data structures, and the Redis scripts as a second implementation |
| `LeaseLock.dfy` | the leased lock as steps of interleaved processes |
| `Breaker.dfy` | the circuit breaker |
| `DrawLine.dfy` | Bresenham's line |

The engine's operations are total functions (`Protocol.dfy`) and, statement by statement, methods on mutable
fields (`Engine.dfy`). Each method is proved to equal its function and to append one step to a ghost run, so a
theorem about runs is a theorem about the object (`Engines.EngineIsSafe`). The store, the breaker and the image
are classes in the same manner. Failing store calls are explicit: a `Faults` value says which calls of an
operation fail, and nothing is assumed about it unless a theorem says so.

## What the proofs found

* The guess budget `maxAttempts * floor((t - t0) / waitTime)` holds as long as no store call fails in an operation
  on the session. With failing calls it is kept exactly in the configurations in which nobody outlives the wait,
  `0 < absoluteLifetime <= waitTime` (`PlainBudgetIsKeptIffNobodyGetsThrough`); in all others one failing call breaks
  it. What failures add is what they make the store forget, and every term is reached by a run:
  `maxAttempts` when the challenge is dropped but the expulsion is not saved (challenge.go:206-222), so
  `2 * maxAttempts` wrong answers within one wait; `maxAttempts - 1`, which is nothing for `maxAttempts == 1`, when a
  challenge that could still be answered is replaced or lost; one for each wrong answer that cannot be counted, without
  end. The replacement happens because `Issue` makes a new challenge on any error while reading the old one
  (challenge.go:90-96).
* Expulsion extends a session without renewing its reservation (challenge.go:209-222), so active sessions can exceed
  the limit although no store call fails. This can happen if and only if both frictions are on and the absolute
  lifetime is unlimited or longer than `waitTime + captcha TTL + 5 minutes` (`CapacityIsKeptIffSheltered`). In any
  run the excess is at most one per expulsion that lets a session outlast its reservation, and per failing call in an
  operation that extends or replaces a session; runs reach that for either kind.
* The four operations on a known session look only whether the circuit is open (onionguard.go:435-607). A half-open
  circuit admits one request, but does not hold those back.
* The breaker's circuit is not a function of the trailing row of infrastructure errors: a success reported
  late, while it is open, ends the row and leaves it open. What decides is whether some row of `threshold`
  errors has occurred since it last closed.
* The lock's exclusion reaches no further than the lease. A section that stalls for a whole lease after its
  read still writes; then a rotation and a revocation of one session both succeed, for every session that may be
  rotated and has a moment more to live (`LateWritesEndTwice`).
* The window bound of a token bucket needs `rate * ttl >= burst`; for every other rule two calls break it.
* A reservation moved onto an id that has one makes the cached count exceed the number of keys; it is exact
  otherwise. The engine only moves to fresh ids.
* The Redis token script stores the caller's clock even if that went back, and the memory store does not. The
  two then disagree about the bucket unless it has expired (`ScriptAgreesIffClockKeepsUp`).
* The scan for the oldest bucket takes the empty key for "none yet" (store/memory.go:222-234), and nothing stops a
  bucket from having it. Then the scan evicts nothing exactly when that key comes last and is strictly oldest
  (`OldestIsNoneIff`), and the buckets outnumber the limit (`EmptyKeyOverflows`). Without it they never do.

## Model

| member | source | states |
|---|---|---|
| GuessBudget.GuessBudgetHolds | challenge.go:71-268 | in every run, wrong answers compared for a session first seen at `t0` number at most `maxAttempts * floor((t - t0) / waitTime)` plus the attempts that failing calls made the store forget |
| GuessBudget.NothingForgotten | challenge.go:71-268 | those are none if no store call failed in an operation on the session |
| GuessBudget.SuccessorsAreNeverGuessedFor | session.go:226-297 | no answer is ever compared for a session made by rotation |
| GuessBudget.SubjectKeepsBudget | challenge.go:204-237 | the inductive heart: attempts left on the stored challenge, the time in the wait room and the guesses so far stay within the allowance whichever move is made |
| Attempts.AttemptsAreLimited | challenge.go:204-237 | in every configuration, wait room or not, at most `maxAttempts` wrong answers are compared for one challenge in any run, plus those that a failing call kept from being counted; none are kept if no call fails |
| GuessWitnesses.PlainBudgetIsKeptIffNobodyGetsThrough | challenge.go:204-237 | with both frictions, every run, failures included, keeps `maxAttempts * floor((t - t0) / waitTime)` for every session if and only if `0 < absoluteLifetime <= waitTime` |
| GuessWitnesses.FailedExpulsionBuysGuesses | challenge.go:206-222 | otherwise a run with one failing save and `2 * maxAttempts` wrong answers within one wait: the budget with its extra term is reached |
| GuessWitnesses.FailedLookupBuysGuesses | challenge.go:90-96 | and one with a failing read and `2 * maxAttempts - 1` of them, more than the plain budget for `maxAttempts >= 2` |
| GuessWitnesses.LostSolutionBuysGuesses | challenge.go:238-262 | and one in which a right answer is neither saved nor its challenge restored, with `2 * maxAttempts - 1` of them |
| GuessWitnesses.UncountedGuessesAreFree | challenge.go:206-222 | and, for every `n`, one in which `n` wrong answers leave no trace, with `maxAttempts + n` of them |
| Patience.AdmissionIsEarned | admission.go:340-421 | every session ever stored as ADMITTED descends by rotations from one that waited `waitTime` since it last entered the wait room, was then issued a challenge, and then gave that challenge's answer |
| Patience.ServiceIsEarned | admission.go:145-214 | no request is ever served for a session whose history lacks that |
| Patience.AllowIsRecorded | admission.go:188-214 | a request is allowed exactly when the history records it as served, so the histories miss nothing |
| Lifetime.ChainFactsHold | session.go:246-277 | along rotations the absolute deadline is the one set at first contact, the renewal count is the depth of the chain and at most a positive `maxRenewals`, and the session's deadline stays within the absolute one |
| Lifetime.LifetimeCeilingHolds | admission.go:159-192 | nothing is served in a chain at or after its absolute deadline, nor at or after its earliest admission plus `(maxRenewals + 1) * sessionTTL` |
| Lifetime.NobodyIsAdmittedTwice | challenge.go:238-252 | in every run, no chain is admitted again after its first admission |
| Capacity.CapacityHolds | admission.go:216-338 | active sessions number at most `maxSessions` plus one for each strike, that is, each expulsion that lets a session outlast its reservation and each failing extension; without strikes each active session holds a reservation that outlives its record and its store entry |
| Capacity.ShelterPreventsStrikes | admission.go:397-420 | without failures there are no strikes if a friction is off or `0 < absoluteLifetime <= waitTime + captcha TTL + 5 minutes` |
| CapacityWitnesses.CapacityIsKeptIffSheltered | challenge.go:208-226 | those are exactly the configurations in which no run without failures has more active sessions than places |
| Capacity.OperationKeepsBound | admission.go:216-255 | no operation lets reservations outnumber the limit |
| Capacity.OperationKeepsCover | admission.go:397-420 | each operation keeps an active session's reservation at least as long-lived as the session, or is accounted for as a strike |
| CapacityWitnesses.ExpulsionOverbooks | challenge.go:208-226 | in every other configuration, a run without failures, with one strike and `maxSessions + 1` active sessions: the capacity bound is reached |
| CapacityWitnesses.FailedRotationOverbooks | session.go:278-290 | without frictions, for every `maxSessions`, a run with one rotation whose two deletions fail, one strike and `maxSessions + 1` active sessions: the other kind of strike reaches the bound too |
| Legality.WritesAreLegal | admission.go:40-99 | whatever any exported operation writes, `Transition` included and under any failures, keeps a live session's state or follows the transition table |
| Legality.WhatLeadsThere | admission.go:40-99 | the transition table read backwards: exactly what leads to each state |
| Legality.EndIsFinal | session.go:202-221 | once stored as REVOKED a session stays so while stored; once EXPIRED it is EXPIRED or REVOKED; neither is rotated |
| Legality.StaysConfined | admission.go:93-98 | the general form: a set of states the table does not lead out of is never left, in any run, by the id or by rotation |
| Legality.OnlyFreshIdsAppear | session.go:29-36 | no operation brings a session back, or changes it, under a drawn id where none is live |
| Legality.ReservationsAreDrawn | admission.go:216-255 | in every run, failures and `Transition` included, capacity is reserved only for ids that were drawn |
| Legality.SuccessorsAreUnreserved | session.go:285-289 | so a rotation always moves a reservation to an id that has none, as `Reservations.MoveIsQuota` asks |
| Rollback.RotationIsAtomic | session.go:278-290 | after an accepted rotation exactly one of the old and the new session is present, unless saving worked and both deletions failed; success is reported exactly when only the new one is; no third session changes |
| Rollback.FailedContactLeavesNothing | admission.go:279-289 | a refused first contact leaves no session, and no reservation unless its release failed too |
| Rollback.FailedAdmissionIsUndone | challenge.go:238-262 | the right answer is accepted exactly when no call it needs fails; otherwise sessions are as before and the challenge, attempts included, can be answered if restoring it worked |
| Rollback.RetryAfterUndoSucceeds | challenge.go:252-262 | after such a restored failure the same answer succeeds |
| Rollback.OnlyTheAnswerIsAccepted | challenge.go:181-204 | an answer is accepted only if it is that of the live challenge bound to the session |
| Rollback.AcceptedAtMostOnce | challenge.go:238-243 | in every run, each challenge is accepted at most once |
| Moves.OperationIsMove | onionguard.go:435-607 | on reachable states every operation of the engine, whatever fails, is one of twelve moves that say completely what happens to sessions and challenges |
| Moves.RunsAreWellFormed | challenge.go:97-142 | in every reachable state the four clocks are ordered: store entry, session, absolute deadline; and a session never outlives the challenge it refers to |
| Effects.RotationIs | session.go:241-292 | a rotation succeeds exactly if the live session is ADMITTED or ROTATING, not outdated, below its renewal limit and before its absolute deadline, and neither locking, saving nor deleting fails |
| Effects.RotatedIs | session.go:264-291 | then the old session is gone and the successor stored as ADMITTED until `min(absolute deadline, now + sessionTTL)`, one renewal deeper, everything else inherited |
| Effects.RotatedIsReserved | session.go:285-289 | and the reservation is under the successor until then, unless moving it fails; nobody else's changes |
| Effects.RotationRefusals | session.go:242-270 | each refusal occurs exactly under its condition, in the order of the checks, and changes nothing |
| Effects.RevocationIs | session.go:202-221 | a revocation succeeds exactly if the session is live and not REVOKED and neither locking nor saving fails; then it is stored as REVOKED without deadline for five minutes, else nothing changes |
| Effects.RevocationFreesThePlace | session.go:216-219 | its reservation is gone, unless releasing it fails, and no other |
| Effects.RevokedIsOver | session.go:207-213 | in every continuation of the run the session is REVOKED or gone, never served again and never rotated |
| Effects.AnswerRefusals | challenge.go:162-193 | who is not allowed to answer, and what they are told; nothing changes |
| Effects.WrongAnswerIsCounted | challenge.go:204-236 | a wrong answer that is not the last raises the stored attempts by one, wait room or not, unless writing fails; nothing else changes |
| Effects.LastWrongAnswerIs | challenge.go:205-223 | the last one removes the challenge and is told so; a failing save leaves the sessions alone |
| Effects.ExpelledIs | challenge.go:208-222 | with a wait room the session starts to wait again, for the wait and ten minutes within its absolute deadline; without one it only loses its challenge |
| Effects.RightAnswerIs | challenge.go:238-266 | the right one removes the challenge and stores the session as ADMITTED for a session lifetime within its absolute deadline, its reservation renewed; a failing delete or save leaves the sessions alone |
| Effects.AnswerableIsShownAgain | challenge.go:91-96 | a challenge that can be presented is shown again and nothing changes |
| Effects.NewChallengeIs | challenge.go:97-142 | otherwise a new one is stored with all attempts, and the session that refers to it, both until the earlier of their deadlines |
| Effects.FailedIssueIsUndone | challenge.go:118-142 | a failing issue leaves the sessions alone, and no new challenge unless removing it fails too |
| Effects.IssueRefusals | challenge.go:79-90 | who gets no challenge, and why; nothing changes |
| Effects.EvaluateIs | admission.go:145-212 | what a request is told, by the stored state, when nothing is to be done for it |
| Effects.WaitingIsHeld | admission.go:193-205 | who has not waited is told when to come back, in whole seconds: then the wait is over, one second earlier it is not |
| Effects.WaitEnds | admission.go:372-420 | who has is stored as CHALLENGE_REQUIRED or ADMITTED with the deadline that goes with it, its reservation renewed, unless locking or saving fails |
| Effects.NewcomerIs | admission.go:257-338 | a newcomer gets in exactly if fewer than `maxSessions` reservations are live and no call fails; then its first record is stored and its place reserved until the same deadline, else no session is stored |
| Effects.RenewalIs | admission.go:248-255 | renewing sets the deadline of the reservation there is, or makes one if there is room; no live reservation of others is lost |
| Effects.TransitionRefusals | admission.go:437-466 | the exported transition refuses what the table does not list |
| Effects.TransitionIs | admission.go:446-470 | otherwise it stores the target state with the deadline that goes with it |
| Effects.TransitionBooks | admission.go:471-478 | an end frees the place and an admission renews it |
| Effects.SweepIs | store/memory.go:563-574 | a sweep removes exactly what has expired |
| Sessions.RemainingTTL | session.go:299-314 | always positive, and the session's own remaining time whenever it has some |
| Requests.RequestsAreRuns | onionguard.go:264-417 | a whole request is a run of the engine's steps, so all theorems about runs cover it |
| Requests.OnlyTheEarnedPass | onionguard.go:384-395 | with both frictions a request passes only for the session its cookie names, only while that is ADMITTED, and only if it was earned |
| Requests.WhatIsShownCanBeSolved | onionguard.go:404-414 | a challenge that a request shows belongs to the session, is live, and its answer admits the session there and then |
| Requests.RequestsLeaveOthers | onionguard.go:264-417 | a request changes no session but the one it is about |
| Requests.LimiterDecides | onionguard.go:317-382 | a request whose cookie could not be read or whose limit is not passed changes nothing and gets nothing, and is told of its limit exactly if that was read and found exceeded |
| Requests.TheAdmittedPass | onionguard.go:384-397 | one that passes for a live ADMITTED session is let through |
| Requests.AdmissionIsPassedOn | onionguard.go:384-417 | what admission says of a known session, error, state and waiting time, is what the caller is told |
| Requests.TheChallengedAreShown | onionguard.go:404-415 | one for a session that faces a challenge is shown one if nothing fails |
| Requests.NewcomersGetIn | onionguard.go:325-333 | one without a known session, while there is room, waits, is shown a challenge, or is let through, as configured, under the candidate id |
| Engines.EngineIsSafe | onionguard.go:14-33 | the fields of an engine satisfy the capacity bound, the guess budget, the earned admission and the lifetime facts |
| Engines.Engine.AuthorizeRequest | onionguard.go:292-417 | equals `Requests.Authorize`, run and decision |
| Guards.GuardedEngine.AuthorizeRequest | onionguard.go:264-417 | does so if the breaker grants it, and nothing otherwise; a store failure that counts, the rate limiter's included, is reported as such, and everything else as a success |
| Guards.GuardedEngine.IssueChallenge | onionguard.go:435-456 | refused exactly when the circuit is open, else takes the step and reports |
| Guards.GuardedEngine.ValidateChallenge | onionguard.go:458-483 | the same |
| Guards.GuardedEngine.RevokeSession | onionguard.go:558-583 | the same |
| Guards.GuardedEngine.RotateSession | onionguard.go:587-612 | the same |
| Engines.Engine.HandleNewClient | admission.go:257-338 | takes the step `FirstContact` |
| Engines.Engine.EvaluateFresh | admission.go:141-214 | takes the step `Request` |
| Engines.Engine.HandleWaitElapsed | admission.go:340-427 | its effect and reply are `Protocol.PassWait` |
| Engines.Engine.Transit | admission.go:429-480 | takes the step `TransitionOne` |
| Engines.Engine.IssueChallenge | challenge.go:71-145 | takes the step of that name |
| Engines.Engine.ValidateChallenge | challenge.go:162-268 | takes the step of that name |
| Engines.Engine.RevokeSession | session.go:189-222 | takes the step `RevokeOne` |
| Engines.Engine.RotateSession | session.go:226-297 | takes the step `RotateOne` |
| WaitRoom.EvaluateAgrees | admission.go:194-198 | the clamped check of a request is exactly `WaitSatisfied` |
| WaitRoom.LockedCheckAgreesIff | admission.go:372-380 | the check under the lock is `WaitSatisfied` if and only if the wait is positive or has passed |
| WaitRoom.RetryAfterSoundAndTight | waitroom.go:10-26 | returning after the advertised delay satisfies the wait, one whole second earlier does not |
| LeaseLock.LeasesExclude | lock.go:99-137 | in every interleaving, at most one process with a running lease is in a session's section |
| LeaseLock.OthersCannotTouch | store/memory.go:374-425 | no step of another process, no tick and no sweep ends, moves or steals a running lease |
| LeaseLock.LapsedForGood | store/memory.go:402-425 | a lapsed lease is never revived |
| LeaseLock.ExtendsIffInLease | lock.go:107-125 | an extension succeeds, for a whole lease from now, exactly while the lease runs; a late one changes nothing |
| LeaseLock.AcquiresIffFree | lock.go:37-63 | an acquisition with a new token succeeds exactly if no running lease is stored, for ten seconds |
| LeaseLock.LeavingFrees | lock.go:129-135 | leaving within the lease frees the lock, so that the next acquisition succeeds; leaving later touches nobody's |
| LeaseLock.WritesMeetWhatWasRead | lock.go:99-137 | if writes to a session happen within leases, what a section read is still stored when it writes, or has been swept away |
| LeaseLock.SectionsDoNotInterleave | lock.go:99-137 | then no other section on the session writes between two writes of one section |
| LeaseLock.EndsOnce | session.go:202-292 | then, of all revocations and rotations of one session, at most one succeeds |
| LeaseLock.LateWritesEndTwice | lock.go:118-125 | without that, for every session that may be rotated at some moment and lives a moment longer, a run in which a rotation and a revocation of it both succeed |
| LeaseLock.Attempt | lock.go:41-47 | one attempt to acquire, on the memory store, succeeds exactly when the model's step does and leaves the same visible keys, unless the store is full and has to evict, and then it loses as little as `SetNX` |
| LeaseLock.RenewOnce | lock.go:118-122 | the same for a renewal |
| LeaseLock.ReleaseOnce | lock.go:90-97 | the same for a release |
| TokenBuckets.WindowBound | store/memory.go:512-560 | in any interval a key admits total cost at most `burst + rate * length`, for every sequence of calls |
| TokenBuckets.SaturationIsNeeded | store/memory.go:534-537 | for every valid rule with `rate * ttl < burst`, two calls exceed that |
| TokenBuckets.ExpiryIsRefill | store/memory.go:534-546 | resetting an expired bucket gives what refilling it would |
| TokenBuckets.RefillComposes | store/memory.go:538-546 | refilling over an interval equals refilling over its parts |
| TokenBuckets.ConsumeByHolding | store/memory.go:527-560 | for any rule, a call finds a full bucket if there is none or it has expired, else its level; it is admitted exactly if that covers the cost, which it then loses |
| TokenBuckets.LevelIsAllThatMatters | store/memory.go:527-560 | two buckets at one level decide every later sequence of calls alike |
| TokenBuckets.DeniedCallsAreInvisible | store/memory.go:547-560 | a denied call changes no later decision |
| TokenBuckets.JanitorIsInvisible | store/memory.go:563-574 | deleting an expired bucket changes no call |
| TokenBuckets.WaitIsExact | store/memory.go:547-560 | below the cap, a denied caller returning after whole seconds is admitted if and only if the advertised wait is over |
| TokenBuckets.WaitIsLeast | store/memory.go:547-560 | the advertised wait is the least number of seconds that bring in what is missing, capped at 9223372036 |
| TokenBuckets.WaitIsEnough | store/memory.go:547-560 | the advertised wait suffices even without saturation, and at any later time |
| TokenBuckets.ScriptAgreesIffClockKeepsUp | store/redis.go:45-76 | the script and the Go code always answer alike, and leave the same bucket if and only if the clock has not gone back behind the last call or the bucket has expired |
| TokenBuckets.StoresAgree | store/redis.go:45-76 | on a clock in whole milliseconds that never goes back, both stores decide every sequence of calls alike and end with the same bucket |
| TokenBuckets.WaitsAgree | store/redis.go:429-486 | the memory store's advertised wait is the script's, rounded up to whole seconds |
| Reservations.ReserveByLive | store/memory.go:126-152 | whatever lingers or is cached, a reservation succeeds exactly when the id holds a live one or fewer than `limit` are live, and changes the live ones accordingly |
| Reservations.ScriptReserveByLive | store/redis.go:77-89 | the script decides by the same rule |
| Reservations.StoresAgree | store/redis.go:77-90 | on an orderly clock, with moves of live reservations, both stores answer every sequence of reserve, release, move and sweep alike |
| Reservations.ReserveKeepsCount | store/memory.go:126-152 | the cached count stays between the number of keys and the limit |
| Reservations.ReleaseKeepsCount | store/memory.go:154-173 | so it does on release |
| Reservations.MoveKeepsCount | store/memory.go:175-194 | and on a move |
| Reservations.PurgeKeepsCount | store/memory.go:96-108 | and on a sweep |
| Reservations.MoveKeepsExactIff | store/memory.go:175-194 | a move keeps an exact count exact if and only if the target holds no reservation, or is the source |
| Reservations.ReserveIsQuota | store/memory.go:126-152 | while the count is exact, one namespace of the table does what the engine model's quota does, and the count stays exact |
| Reservations.MoveIsQuota | store/memory.go:175-194 | the same for a move to a fresh id |
| Reservations.PurgeIsQuota | store/memory.go:96-108 | the same for a sweep |
| Reservations.PrefixMeansNamespace | store/memory.go:95-124 | a key has the prefix of a namespace exactly when it belongs to it, if namespaces hold no NUL |
| Reservations.KeysAreDistinct | store/memory.go:95-95 | no two slots share a key |
| MemoryStores.MemoryStore.GetShared | store/memory.go:236-257 | the answer is what the abstract map of live keys holds |
| MemoryStores.MemoryStore.GetUpgrade | store/memory.go:258-268 | after the lock upgrade nothing any reader can see from then on is removed, whatever was written in between |
| MemoryStores.MemoryStore.Set | store/memory.go:270-297 | stores the value; a live entry is lost only if `maxEntries` are live, only one is, and none expires earlier; no bucket appears or changes and no live one is lost |
| MemoryStores.MemoryStore.SetNX | store/memory.go:339-372 | writes exactly when no live entry is there, at the same cost to entries and buckets |
| MemoryStores.MemoryStore.GetDel | store/memory.go:315-337 | returns and removes the visible entry |
| MemoryStores.MemoryStore.CompareAndDelete | store/memory.go:374-400 | removes exactly the visible entry that was expected |
| MemoryStores.MemoryStore.CompareAndTouch | store/memory.go:402-425 | extends exactly the visible entry that was expected |
| MemoryStores.MemoryStore.Touch | store/memory.go:427-454 | extends a visible entry, keeps its value |
| MemoryStores.MemoryStore.Delete | store/memory.go:299-313 | removes one key from what is visible, nothing else |
| MemoryStores.MemoryStore.Check | store/memory.go:196-204 | accepts exactly non-empty keys and values within their limits, and reports an ill key first |
| MemoryStores.MemoryStore.ConsumeToken | store/memory.go:512-560 | equals `TokenBuckets.Consume`; of the other live buckets one at most is lost, only from a full store, and the one used longest ago if none has an empty key; the buckets outgrow `maxEntries` only if the empty key is strictly oldest, and never if it was never used |
| MemoryStores.MemoryStore.EvictOldestEntry | store/memory.go:208-220 | removes one entry, and none expires earlier |
| MemoryStores.MemoryStore.EvictOldestBucket | store/memory.go:222-234 | removes what one scan finds, in some order of the keys |
| Eviction.OldestIsLeast | store/memory.go:222-234 | among proper keys the scan finds one with the earliest time |
| Eviction.OldestIsNoneIff | store/memory.go:222-234 | the scan finds nothing if and only if it ends with the empty key and all others are strictly younger |
| Eviction.EvictionCanFailIff | store/memory.go:222-234 | an order in which it finds nothing exists if and only if the empty key is there and strictly oldest |
| MemoryStores.EmptyKeyOverflows | store/memory.go:527-533 | two calls after which a store with one place holds more than one bucket |
| MemoryStores.MemoryStore.ReserveSession | store/memory.go:126-152 | equals `Reservations.Reserve` on keys and counts |
| MemoryStores.MemoryStore.MoveSessionReservation | store/memory.go:175-194 | equals `Reservations.Move` |
| MemoryStores.MemoryStore.PurgeReservations | store/memory.go:96-108 | equals `Reservations.Purged`, though it deletes while it scans |
| MemoryStores.MemoryStore.CountReservations | store/memory.go:110-124 | drops the expired keys of one namespace and counts the rest |
| MemoryStores.MemoryStore.Janitor | store/memory.go:576-596 | a sweep leaves nothing expired, and changes nothing that can be seen from then on |
| MemoryStores.NoLossBelowCapacity | store/memory.go:288-296 | below `maxEntries` live entries, a write is a plain map update |
| Breakers.CircuitRefinesReports | circuit_breaker.go:169-205 | CLOSED if and only if no row of `threshold` infrastructure errors since the last closing; `failures` is the row in progress, or `threshold`; a probe in flight implies HALF_OPEN |
| Breakers.LateSuccessDoesNotClose | circuit_breaker.go:176-190 | the trailing row alone does not decide |
| Breakers.OneProbePerEpisode | circuit_breaker.go:140-155 | a half-open episode lets one operation through, in whatever order callbacks arrive |
| Breakers.GrantedIff | circuit_breaker.go:130-155 | a call is let through exactly if no row of `threshold` errors since the last closing, or the last opening is a cool-down ago, or the circuit is half-open and has let nobody through yet |
| Breakers.DisabledLetsAllThrough | circuit_breaker.go:131-134 | a disabled breaker lets everyone through and stays closed |
| Breakers.LookIs | circuit_breaker.go:93-109 | looking finds an open circuit half-open exactly after a cool-down |
| Breakers.OutageBound | circuit_breaker.go:102-155 | in an outage, late callbacks included, at most one operation per full cool-down is let through |
| Breakers.OutageBoundIsTight | circuit_breaker.go:102-155 | for every number of cool-downs there is an outage that attains it |
| Breakers.CircuitBreaker.Allow | circuit_breaker.go:130-155 | appends one call to the trace, and lets it through exactly when the trace model does |
| Breakers.CircuitBreaker.Done | circuit_breaker.go:169-205 | appends one report |
| DrawLine.LineIsIdeal | captcha.go:266-299 | the line has `max(dx, dy) + 1` pixels from one end to the other, inside the bounding box, each touching but different from the next, each within half a pixel of the ideal line |
| DrawLine.NearIsRounded | captcha.go:278-297 | the pixel within half a pixel is the rounded one, and no other |
| DrawLine.TurnIsStep | captcha.go:288-297 | one turn of the loop moves from one pixel of the line to the next and keeps `err` equal to `(j + 1) * dx - (i + 1) * dy` |
| DrawLine.Image.DrawLine | captcha.go:266-299 | terminates and plots exactly that line, in order |
| DrawLine.Image.PaintIs | captcha.go:285-285 | plotting paints the points inside the image and nothing else |

## Left out

- HTTP and Fiber middleware, cookies, headers, HTML, PNG rendering and everything in `captcha.go` but `drawLine`.
- Credentials: identity extraction, principals and API tokens; the model starts from the session id in the cookie.
- Cryptography and encoding: ids, challenge ids and owner tokens are fresh, the answer stands for its hash, records are stored as they are. Answers arrive trimmed and upper-cased.
- Redis client, pooling, error mapping; only the script bodies are modelled, in whole milliseconds.
- `IncrementWithTTL`: the two stores differ on it by design.
- Shutdown, draining, closed stores and cancelled contexts, which only make calls fail.
- Metrics, state-change callbacks, and the `Kind` field of a session.
- Floating-point rounding and overflow of 64-bit durations: tokens are `real`, times are `int`.
- Entries without expiry: neither the engine nor the stores' public calls create one.
- Configuration checks: `Config.Valid` lists the bounds used, as `Config.Validate` enforces them (config.go:294-444).
- A failing store call is taken to have no effect; a call that takes effect and yet reports failure is not modelled.
- Each operation of the engine runs at one clock instant. `LeaseLock` shows that sections within their leases do not interleave, but not that the clock stands still in them.
- The engine's store never evicts a session, a challenge or a reservation: `Engine` and `Protocol` keep them until they expire or are deleted. `MemoryStore` says when a full store evicts.
- Engines.Engine.AuthorizeRequest: the rate limiter's verdict is an input; token buckets are proved separately. Requests with credentials of their own end at that verdict and are not modelled.
- Guards.GuardedEngine.AuthorizeRequest: whether a store failure counts for the breaker is an input, and an operation reports at the instant it began; `Breakers` covers late reports.
- LeaseLock.Attempt: the retry loop around it with its random delays and two-second limit is left out; a failed attempt changes nothing.
- LeaseLock.LeasesExclude: leases are measured on the store's clock, and the store is taken to evict nothing.
- LeaseLock.EndsOnce: needs every write to that session to fall within its writer's lease, which the code does not check.
- Breakers.OutageBound: needs a clock that never goes back.
- Reservations.StoresAgree: limits are fixed per namespace, and moves are of live reservations.
