# A verified model of the social API

The social API counts likes. This project models the parts of it that keep state, in Dafny 4.11, and
proves what they keep over whole runs:

- **The like service** (`Likes`, `ServiceSpec`, `LikeService`, `ServiceErrors`, `CounterRuns`, `BatchReply`,
  `BatchLocks`): a table of
  likes under a unique key, a Redis counter per content, and the lock map `flight_locks`. The classes
  change their fields as the source does; each method is tied to a function of the old state, and the
  laws are proved about those functions. Every database and cache command may fail: an `up` function
  decides each call in turn.
- **The counter of one key under concurrency** (`CounterProtocol`, `Environments`, `Conservation`,
  `SingleFlight`, `FlightEnvironments`, `CounterEnvironments`, `CounterRaces`, `CounterSolo`): adds, removals, reads and batches cut into their
  atomic pieces and interleaved in any order, with failing commands and expiry.
- **The rate limiter** (`LuaBucket`, `RateLimit`, `RateBounds`): the Lua token bucket and its callers.
- **The circuit breaker** (`CircuitBreaker`).
- **Keyset pagination** (`Pagination`).
- **The content validator** (`ValidatorFlight`): one external call per key at a time.
- **The leaderboard** (`TopLikes`, `Leaderboard`, `LeaderboardRuns`, `LeaderboardAge`,
  `LeaderboardSolo`): the query, the
  canary and the refresh lock, and their interleavings over a table of likes that changes.

`dafny verify dfyconfig.toml` checks everything.

## How the model reads the source

- `LuaBucket` has the Lua script on the tokens it stores; a key may be asked with any limits and windows.
  The laws are about a key asked with one limit and one window: tokens are then counted in units of
  1/window, which makes the arithmetic exact (capacity `limit * window`, refill `limit` per second, cost
  `window`), and `LuaBucket.LuaRunIsClockRun` carries the laws over. `limit >= 1` and `window >= 1`.
- Times are whole seconds. Clocks are parameters of the calls; the rate limiter has two, the caller's,
  which stamps the request, and Redis's, which drops keys. Where a law has one list of times, both agree.
- UUIDs are numbers with the order the database sorts them by. A string key built from a content type
  and a content id is the pair itself; an encoded cursor is the value it decodes to, or malformed text.
- A negative counter fails to parse as `u64`: GET then counts as a miss, INCR and DECR as an error
  after having taken effect, and MGET fails as a whole.
- A failing command changes nothing. Where batches are interleaved, an MGET that fails because another key
  it lists has a negative counter is one of the failing cache commands.

## Where the promises of the repository do not hold as stated

- `Readme.md` (section 2.2) promises immediate consistency for the acting user through the write-through
  cache. The count answered to a like or an unlike is the true one exactly under the conditions of
  `CounterRuns.AddAnswersTrueCountExactlyIf` and `CounterRuns.RemoveAnswersTrueCountExactlyIf`: a first
  INCR on an absent key starts at 1 whatever the table holds, and an unlike on an absent key decrements
  a counter it has just filled with the already lowered count. `CounterRuns.ExpiryMakesLikeWrong` and
  `CounterRuns.ExpiryMakesUnlikeWrong` are runs from an empty table.
- Under concurrency the counter may also be wrong until it expires, even once all tasks have finished.
  Starting from the right counter, it ends right exactly if adds and removals do not both come, and
  neither comes where the counter may expire or the cache fail (`CounterEnvironments.EndsRightExactlyIf`);
  starting without one, exactly if neither comes, or, without a like either, if no adds come
  (`EndsRightFromAbsentExactlyIf`, `EndsRightFromNothingExactlyIf`). `CounterRaces` has the two races that
  need no failure and no expiry. For single runs, `Conservation.RestUntouchedIsExactExactlyIf`,
  `RestAfterFillIsExactExactlyIf` and `RestAfterExpiryIsExactExactlyIf` say when the end is right, from the
  last event that overwrote the counter; `Conservation.EveryRestIsCovered` shows that there is no fourth case.
- Single flight holds exactly as long as there are neither removals nor batches nor expiry nor failing
  cache commands; each of them alone breaks it (`FlightEnvironments.SingleFlightExactlyInCalm`). Removals
  do without any failure: two of them can drive the counter to -1, which nobody can read.
- A batch leaves the keys it missed in `flight_locks`, because its background task cleans a copy of the
  map; later batches that miss the content omit it, until a read that misses the counter succeeds
  (`BatchLocks.OmittedExactlySinceMiss`). Under concurrency, too, the lock map ends without the key in all
  runs exactly if there are neither batches nor failing queries (`FlightEnvironments.EndsCleanExactlyIf`).
- The batch looks cached counts up by content id alone, which is right exactly if no id is listed under
  two types (`BatchReply.CachedAnswersAreOwnExactlyIfOneTypePerId`).
- The rate limiter's hour of key lifetime is harmless, on one clock, exactly for windows of at most an
  hour (`RateBounds.RefinementExactlyUpToAnHour`, `RateBounds.RateBoundExactlyUpToAnHour`,
  `RateBounds.ResetExactlyUpToAnHour`); the routes use 60 s. With the caller's clock falling behind
  Redis's by up to a lag, the bound by forward moves holds exactly if window and lag together are at most
  an hour (`RateBounds.BoundedExactlyUpToLag`).
- A client that obeys Retry-After after its server's clock was set back may be rejected again:
  `RateBounds.RetryAfterResetIsAdmittedExactlyIf` and the input `RateBounds.SetBackClientWaitsTwice`.
- Calls that overlap can make the breaker forget failures, exactly if it takes more than one failure to
  open it (`CircuitBreaker.CanLoseExactlyAboveOne`); `CircuitBreaker.CheckLosesExactlyAfter` says when.
- The leaderboard's cache key omits the limit: a request may be served the list of another request's
  limit, unless all ask with one (`LeaderboardRuns.ServesOwnLimitsExactlyIfOne`).
- A page limit of 0 panics if there is a like to show (`LikeService.LikeService.GetUserLikedItems`).
- `Readme.md` (section 2.2) bounds the staleness of leaderboards by 300 seconds. A list served as fresh may be
  older by the time its refresh takes between query and SET, and one served stale has no greatest age
  (`LeaderboardAge.FreshAgeExactly`, `LeaderboardAge.StaleHasNoAgeBound`).
- `Readme.md` speaks of a very long lifetime of the leaderboard data and a canary of 60 seconds. The code
  gives the data no expiry and the canary 30 or 300 seconds; the model follows the code.

## Model

| member | source | states |
|---|---|---|
| Likes.CountsAfterInsert | social_api/src/infrastructure/postgres/like_repository.rs:27-48 | A new row raises the count of its content by one and no other |
| Likes.CountsAfterDelete | social_api/src/infrastructure/postgres/like_repository.rs:98-118 | A deleted row lowers the count of its content by one and no other, and that count was at least one |
| Likes.JoinMultiplies | social_api/src/infrastructure/postgres/like_repository.rs:165-177 | The UNNEST join counts a pair listed m times as m times its true count |
| Likes.DistinctInputCountsOnce | social_api/src/infrastructure/postgres/like_repository.rs:154-195 | On an input without repetitions the grouped join has exactly one row per pair, with the count a single query gives |
| LikeService.PostgresLikeRepository.Save | social_api/src/infrastructure/postgres/like_repository.rs:27-48 | An insert under an occupied unique key changes nothing and reports that the like existed; otherwise exactly that row is added |
| LikeService.PostgresLikeRepository.Remove | social_api/src/infrastructure/postgres/like_repository.rs:98-118 | Exactly the row of the key goes, and the answer tells whether there was one |
| LikeService.PostgresLikeRepository.GetCountsBatch | social_api/src/infrastructure/postgres/like_repository.rs:154-195 | The rows are the grouped join of the input with the likes, in some order |
| LikeService.PostgresLikeRepository.GetUserLikes | social_api/src/infrastructure/postgres/like_repository.rs:197-224 | The first n rows of the filtered likes below the cursor, newest first |
| LikeService.PostgresLikeRepository.GetTopLikes | social_api/src/infrastructure/postgres/like_repository.rs:226-256 | The rows are a top list of the grouped likes; a negative limit is a database error |
| LikeService.RedisLikeRepository.Bump | social_api/src/infrastructure/redis/like_repository.rs:121-158 | INCR and DECR take an absent key for 0; a negative result is stored and still reported as an error |
| LikeService.RedisLikeRepository.GetCountsBatch | social_api/src/infrastructure/redis/like_repository.rs:197-228 | Hits keyed by content id, later items first; one negative counter fails the whole MGET |
| LikeService.RedisLikeRepository.SetCountsBatch | social_api/src/infrastructure/redis/like_repository.rs:230-251 | All rows are written, or none |
| LikeService.LikeService.GetLikeCountWithFallback | social_api/src/application/like_service.rs:514-568 | The whole new state and the answer of a read, for every pattern of failing commands; a failed query leaves the lock-map entry |
| LikeService.LikeService.AddLike | social_api/src/application/like_service.rs:59-139 | The whole new state and the answer of an add, for every pattern of failing commands |
| LikeService.LikeService.RemoveLike | social_api/src/application/like_service.rs:142-204 | The whole new state and the answer of a removal, for every pattern of failing commands |
| LikeService.LikeService.Partition | social_api/src/application/like_service.rs:261-274 | Cached items are answered in request order, the others collected in request order |
| LikeService.LikeService.LockMissing | social_api/src/application/like_service.rs:280-295 | Every missing key ends up locked; an item is fetched only if its key was free when its turn came |
| LikeService.LikeService.GetLikesCountBatch | social_api/src/application/like_service.rs:247-315 | Reply, background write and new state of a batch, including the size limit and a failing query |
| LikeService.LikeService.Rehydrate | social_api/src/application/like_service.rs:302-311 | The background task writes the fetched counts and leaves the live lock map alone |
| LikeService.LikeService.GetUserLikedItems | social_api/src/application/like_service.rs:362-394 | A malformed cursor is an error before any query; otherwise one page and the cursor of its last row if more rows follow |
| ServiceErrors.ReadFailsExactlyIf | social_api/src/application/like_service.rs:514-568 | A read fails exactly if neither GET delivers a count and the count query fails, and then with the database's error |
| ServiceErrors.AddFailsExactlyIf | social_api/src/application/like_service.rs:59-139 | For which failing commands an add fails, both ways, always with the database's error; an invalid content is refused with nothing touched |
| ServiceErrors.RemoveFailsExactlyIf | social_api/src/application/like_service.rs:142-204 | The same for a removal |
| ServiceErrors.BatchIsRefusedExactlyAboveHundred | social_api/src/application/like_service.rs:251-253 | 100 items are never refused for their number, 101 always, before any command |
| CounterRuns.AddDrift | social_api/src/application/like_service.rs:79-139 | A warm add keeps the drift, a cold add leaves minus the previous count, a repeated cold add leaves 0; other contents are untouched |
| CounterRuns.RemoveDrift | social_api/src/application/like_service.rs:153-204 | A warm removal keeps the drift or, reading 0, moves it towards 0; a cold one leaves 0 for the last like and -1 otherwise |
| CounterRuns.AddAnswersTrueCountExactlyIf | social_api/src/application/like_service.rs:86-138 | The condition, on the state before the call, under which a like is answered with the true count, both ways |
| CounterRuns.RemoveAnswersTrueCountExactlyIf | social_api/src/application/like_service.rs:159-203 | The same for an unlike, both ways |
| CounterRuns.ExpiryMakesLikeWrong | social_api/src/application/like_service.rs:103-138 | A run from an empty table: like, expiry, a like by somebody else answered with 1 although there are two likers |
| CounterRuns.ExpiryMakesUnlikeWrong | social_api/src/application/like_service.rs:153-203 | A run from an empty table: two likes, expiry, an unlike answered with 0 although a liker is left |
| CounterRuns.IdsStayUnique | social_api/src/infrastructure/postgres/like_repository.rs:27-48 | Over all sequential runs, likes with new row ids keep row ids unique, which pagination relies on |
| CounterRuns.CountersStayInRange | social_api/src/application/like_service.rs:79-315 | Over all sequential runs with batches, expiry and failing queries, every counter stays between 0 and the true count |
| CounterRuns.OfflineServiceIsASet | social_api/src/application/like_service.rs:79-203 | With the cache failing on every call, every run answers exactly as a bare set of likes, times and flags included |
| CounterRuns.OfflineCountIsNet | social_api/src/application/like_service.rs:79-203 | Offline, the count after any run is the initial count plus likes answered as new minus unlikes answered as removing |
| BatchReply.CachedAnswersAreOwnExactlyIfOneTypePerId | social_api/src/infrastructure/redis/like_repository.rs:219-227 | Cached answers carry their own pair's counter in every cache state exactly if no content id is listed under two types |
| BatchReply.LastListedIsHit | social_api/src/infrastructure/redis/like_repository.rs:219-227 | Of the cached pairs with one content id, the one listed last gives the cached count |
| BatchReply.FetchedOnce | social_api/src/application/like_service.rs:280-295 | The list to fetch never repeats a pair and holds exactly the missing pairs that were not locked |
| BatchReply.BatchRowsAreCounts | social_api/src/application/like_service.rs:297-308 | Every row answered from the database and written back is the single-item count of its pair |
| BatchReply.BatchReplyIs | social_api/src/application/like_service.rs:247-315 | The reply is the cached hits in order with repetitions, then one true count per distinct missing unlocked pair, and nothing else |
| BatchReply.BatchLocksMissing | social_api/src/application/like_service.rs:283-311 | After a batch the lock map holds, besides what it held, exactly the pairs the batch missed |
| BatchReply.BatchAfterExpiryIsEmpty | social_api/src/application/like_service.rs:283-314 | A batch of uncached contents, repeated after its counters expired, is answered with an empty list |
| BatchLocks.LockedExactlySinceMiss | social_api/src/application/like_service.rs:280-311 | Over all sequential runs a key is locked exactly if a batch missed it, or a read of it failed, and no cold read has succeeded since |
| BatchLocks.MissIsAnsweredExactlyIfUnlocked | social_api/src/application/like_service.rs:283-314 | A batch that misses a content answers for it exactly if its key is not locked |
| BatchLocks.OmittedExactlySinceMiss | social_api/src/application/like_service.rs:283-314 | Over all sequential runs a batch that misses a content omits it exactly if an earlier batch missed it, or a read failed, and no cold read has succeeded since |
| Conservation.CounterLaw | social_api/src/application/like_service.rs:79-204 | Over every interleaving, failing commands included: counter = likers - unseen adds + unseen removals + skipped decrements + what fills and expiry overwrote |
| Conservation.CounterConservation | social_api/src/application/like_service.rs:79-204 | Without a SET or an expiry the same law without the last term |
| Conservation.QuiescentCounterIsExact | social_api/src/application/like_service.rs:79-204 | A healthy run that is never overwritten ends, once at rest, with the counter equal to the likers exactly if no removal skipped its decrement |
| Conservation.RestUntouchedIsExactExactlyIf | social_api/src/application/like_service.rs:79-204 | The same from any start: right exactly if what the counter lacked at the start was skipped |
| Conservation.RestAfterFillIsExactExactlyIf | social_api/src/application/like_service.rs:103-189 | If a fill overwrote the counter last, it ends right exactly if the writes that fall on both sides of the fill, or wholly between its query and its SET, balance, add by add and removal by removal |
| Conservation.RestAfterExpiryIsExactExactlyIf | social_api/src/application/like_service.rs:79-204 | If an expiry overwrote it last, it ends right exactly if adds still to be counted and later skips are as many as likers and owed decrements |
| Conservation.EveryRestIsCovered | social_api/src/application/like_service.rs:79-315 | Every healthy run at rest was never overwritten, or last by an expiry, or last by a fill of a read or batch together with its query |
| CounterEnvironments.EndsRightExactlyIf | social_api/src/application/like_service.rs:79-315 | Over all interleavings from the right counter it ends right exactly if adds and removals do not both come, and neither where the counter may expire or the cache fail; reads, batches and failing database commands never matter |
| CounterEnvironments.EndsRightFromAbsentExactlyIf | social_api/src/application/like_service.rs:79-315 | Over all interleavings from an absent counter it ends right exactly if there are neither adds nor removals |
| CounterEnvironments.EndsRightFromNothingExactlyIf | social_api/src/application/like_service.rs:79-315 | Over all interleavings from an absent counter and no like it ends right exactly if there are no adds |
| Conservation.ConcurrentLikesAreCounted | social_api/tests/api_integration.rs:859-903 | First likes by different users, interleaved in any way, are all counted: old likers plus one per request |
| FlightEnvironments.SingleFlightExactlyInCalm | social_api/src/application/like_service.rs:534-568 | Over all interleavings, at most one fill query runs at a time, and at most one ever succeeds, exactly if the surroundings allow no removals, batches, expiry or failing cache commands |
| FlightEnvironments.RemovalsBreak | social_api/src/application/like_service.rs:153-189 | A run without failure or expiry in which two removals leave a counter of -1 and two readers query at once |
| FlightEnvironments.BatchBreaks | social_api/src/application/like_service.rs:283-290 | A run in which a batch replaces the mutex in use and two readers query at once |
| FlightEnvironments.ExpiryBreaks | social_api/src/application/like_service.rs:543-566 | A run with one expiry in which two readers query at once |
| FlightEnvironments.CacheFailureBreaks | social_api/src/application/like_service.rs:562-566 | A run with one failing SET in which two readers query at once |
| SingleFlight.ReadersShareOneQuery | social_api/src/application/like_service.rs:534-568 | Readers and likes with a working cache and no expiry share one query, however they interleave and whichever queries fail |
| SingleFlight.NobodyElseCritical | social_api/src/application/like_service.rs:543-560 | A task that misses at the double check finds no other task past it, although stale mutexes may be around |
| SingleFlight.LockMapEndsClean | social_api/src/application/like_service.rs:550-567 | If no fill query failed and no batch came by, the lock map has no entry for the key once all tasks are finished |
| FlightEnvironments.EndsCleanExactlyIf | social_api/src/application/like_service.rs:280-311 | Over all interleavings the lock map ends without the key, once at rest, exactly if neither batches nor failing database commands are allowed |
| CounterRaces.FillCountsPendingAddTwice | social_api/src/application/like_service.rs:103-110 | A run of one add and one read, without failures, that ends with one liker and a counter of 2 |
| CounterRaces.SkipLeavesPhantomLike | social_api/src/application/like_service.rs:159-189 | A run without failures and fills that ends with no liker and a counter of 1 |
| CounterSolo.SoloReadIsTheCode | social_api/src/application/like_service.rs:534-568 | The protocol steps of one read, not interleaved, have the effect and the answer of the sequential operation, for every pattern of failures |
| CounterSolo.SoloAddIsTheCode | social_api/src/application/like_service.rs:79-138 | The same for an add |
| CounterSolo.SoloRemoveIsTheCode | social_api/src/application/like_service.rs:153-203 | The same for a removal |
| CounterSolo.SoloBatchIsTheCode | social_api/src/application/like_service.rs:247-315 | The same for a batch of any items that lists the key, its background write included |
| LuaBucket.RateLimiter.CheckLimit | social_api/src/infrastructure/redis/like_repository.rs:419-463 | The key's new state and the answer are those of one script evaluation on whole and fractional tokens, for any limit and window; other keys are untouched; offline nothing happens |
| LuaBucket.ScriptIsScaled | social_api/src/infrastructure/redis/rate_limit.lua:8-46 | For one limit and window the script admits, answers and stores as the one on units of 1/window |
| LuaBucket.LuaRunIsClockRun | social_api/src/infrastructure/redis/rate_limit.lua:8-46 | Over whole runs on two clocks the answers are the same, so that the laws below hold of the script as written |
| LuaBucket.KeyLivesAnHour | social_api/src/infrastructure/redis/rate_limit.lua:29-33 | A key written by an admission is read for 3600 seconds of Redis's clock, refilled and capped, and is full from then on |
| LuaBucket.FirstAnswer | social_api/src/infrastructure/redis/rate_limit.lua:14-46 | The first request is admitted, leaves limit - 1, and reports the seconds that refill one token, rounded up |
| LuaBucket.EmptiedWriteKey | social_api/src/infrastructure/redis/rate_limit.lua:14-46 | With limit 30 and window 60, an emptied key admits after ten seconds, leaving 4 and 52 seconds to full |
| RateLimit.LazyRefinesEager | social_api/src/infrastructure/redis/rate_limit.lua:15-36 | On nondecreasing traces the script answers as a bucket that persists every refill and never expires |
| RateBounds.RefinementExactlyUpToAnHour | social_api/src/infrastructure/redis/rate_limit.lua:29-33 | That refinement holds for all traces exactly if the window is at most the 3600 s a key lives |
| RateBounds.RateBound | social_api/src/infrastructure/redis/rate_limit.lua:15-36 | At most limit + (limit / window) * length admissions in any interval of any run |
| RateBounds.RateBoundExactlyUpToAnHour | social_api/src/infrastructure/redis/rate_limit.lua:15-36 | That bound holds for all runs exactly if the window is at most 3600 s |
| RateBounds.RateBoundUnderClockSkew | social_api/src/infrastructure/redis/rate_limit.lua:15-36 | With any two clocks, admissions are bounded by one burst for each request that finds no key plus the refill of the forward moves between admissions on a live key |
| RateBounds.BoundedExactlyUpToLag | social_api/src/infrastructure/redis/rate_limit.lua:15-36 | One burst plus the refill of all forward moves bounds the admissions, for all runs whose caller clock falls behind by at most a lag, exactly if window and lag together are at most 3600 s |
| RateBounds.GreedyIsOptimal | social_api/src/infrastructure/redis/rate_limit.lua:15-36 | At every prefix of every nondecreasing trace the script has admitted at least as many requests as any policy that never overdraws the same bucket |
| RateBounds.RemainingIsExact | social_api/src/infrastructure/redis/rate_limit.lua:38-46 | Of any number of further requests in the same second exactly the reported remaining number succeed, and they come first |
| RateBounds.FullExactlyAfter | social_api/src/infrastructure/redis/rate_limit.lua:29-39 | The bucket is full after an idle wait exactly if the wait reaches the reported time plus the lag of a clock set back, or the moment Redis drops the key |
| RateBounds.ResetAfterIsExactExactlyIf | social_api/src/infrastructure/redis/rate_limit.lua:29-39 | The reported reset time is the least wait for a full bucket exactly if there is no lag and the key lives that long, or it is dropped at that second |
| RateBounds.ResetExactlyUpToAnHour | social_api/src/infrastructure/redis/rate_limit.lua:29-39 | On one clock that does not go back all reset times are exact exactly if the window is at most 3600 s |
| RateBounds.RetryIsAdmittedExactlyFrom | social_api/src/api/middleware.rs:128-135 | A rejected request repeated after an idle wait is admitted exactly from the refill of one request plus the lag on, or once the key is dropped |
| RateBounds.RetryAfterResetIsAdmittedExactlyIf | social_api/src/api/middleware.rs:128-135 | Obeying Retry-After leads to admission exactly if the lag is at most what a full bucket takes longer than one token, or the key is dropped in time |
| RateBounds.RetryAfterResetIsAdmitted | social_api/src/api/middleware.rs:128-135 | Without a lag a retry after the reported wait is admitted, for windows of any length |
| RateBounds.SetBackClientWaitsTwice | social_api/src/api/middleware.rs:128-135 | An input with a clock set back by a minute: the client waits as told and is told to wait again |
| CircuitBreaker.CircuitBreaker.CheckState | social_api/src/infrastructure/clients/circuit_breaker.rs:49-81 | The verdict comes from the counters alone; the stored state only decides whether failures are zeroed |
| CircuitBreaker.CircuitBreaker.Run | social_api/src/infrastructure/clients/circuit_breaker.rs:83-115 | Fields and result of a call for every answer of the dependency |
| CircuitBreaker.InvariantAlongRuns | social_api/src/infrastructure/clients/circuit_breaker.rs:57-115 | In sequential runs a stored state other than Closed means no failures or at least the threshold |
| CircuitBreaker.SequentialChecksLoseNothing | social_api/src/infrastructure/clients/circuit_breaker.rs:57-78 | No check of a sequential run throws a recorded failure away |
| CircuitBreaker.CheckLosesExactlyAfter | social_api/src/infrastructure/clients/circuit_breaker.rs:49-115 | In any interleaving of calls a check throws failures away exactly if the check before it did not find the breaker closed and since then a success was followed by failures, fewer than the threshold |
| CircuitBreaker.LossNeedsOverlap | social_api/src/infrastructure/clients/circuit_breaker.rs:83-115 | A lost failure implies that one call started while another was under way |
| CircuitBreaker.CanLoseExactlyAboveOne | social_api/src/infrastructure/clients/circuit_breaker.rs:49-115 | Some interleaving from a fresh breaker, on a clock that does not go back, loses a failure exactly if the threshold is above one |
| CircuitBreaker.BreakerRefinesMachine | social_api/src/infrastructure/clients/circuit_breaker.rs:57-115 | In sequential runs the counters admit and reject exactly as an explicit Closed / Open / HalfOpen machine |
| CircuitBreaker.OutageBound | social_api/src/infrastructure/clients/circuit_breaker.rs:49-115 | An interval in which the dependency is unavailable starts at most threshold + length / timeout inner calls, whatever came before |
| Pagination.NewestFirst | social_api/src/infrastructure/postgres/like_repository.rs:212-213 | The first n rows of the descending order: later times first, larger ids first within a time, and nothing left out that comes before a picked row |
| Pagination.PageIsNewestFirst | social_api/src/application/like_service.rs:371-388 | A page in numbers: only matching likes under the cursor, later ones and larger ids first, none left out that is newer than a listed one, and a next cursor, the last row of a full page, exactly if one is left out |
| Pagination.FetchSplitsOrder | social_api/src/application/like_service.rs:371-388 | A page and what its cursor leaves are the descending order cut in two, with nothing lost at the cut |
| Pagination.WalkIsComplete | social_api/src/application/like_service.rs:362-394 | On a fixed table a walk ends, all pages but the last are full, and the pages together are the sorted matching likes |
| Pagination.WalkListsEachLikeOnce | social_api/src/application/like_service.rs:362-394 | Every like of the user and kind occurs exactly once in the walk and nothing else occurs; later times come first, larger ids first within a time |
| Pagination.PaginationUnderMutation | social_api/src/application/like_service.rs:362-394 | With arbitrary changes between fetches the items still come newest first, no like twice, and every like present throughout a completed walk once |
| ValidatorFlight.HttpExternalValidator.ValidateContent | social_api/src/infrastructure/clients/http_external_validator.rs:163-204 | One round: verdict, cache and lock set, for every reply and every cache failure, and the decision to sleep and start over |
| ValidatorFlight.SoloTaskIsTheCode | social_api/src/infrastructure/clients/http_external_validator.rs:163-204 | The interleavable steps of a round that need not wait, not interleaved, have the effect and the result of the code |
| ValidatorFlight.SoloTaskSleeps | social_api/src/infrastructure/clients/http_external_validator.rs:180-183 | A round that misses the cache and finds its key locked changes nothing and starts over |
| ValidatorFlight.OneFlightFromTheStart | social_api/src/infrastructure/clients/http_external_validator.rs:180-202 | In every interleaving the locked keys are exactly those with a flight under way, one task each; none is locked once all are done |
| ValidatorFlight.LateCallsAreBounded | social_api/src/infrastructure/clients/http_external_validator.rs:170-185 | While a verdict stays cached, later external calls for its key number at most the tasks that had already missed the cache |
| ValidatorFlight.VerdictsAreReplies | social_api/src/infrastructure/clients/http_external_validator.rs:170-203 | In every interleaving a returned verdict was cached for its key at the start or is what the content API answered a task for that key |
| ValidatorFlight.NoVerdictIsOwn | social_api/src/infrastructure/clients/http_external_validator.rs:185-203 | A task returns without a verdict only after the content API gave it none itself |
| ValidatorFlight.DefinitiveIsCached | social_api/src/infrastructure/clients/http_external_validator.rs:187-200 | A definitive reply, positive or negative, is cached once its task has finished, if its cache commands succeed, and stays so until the key expires |
| TopLikes.MostLiked | social_api/src/infrastructure/postgres/like_repository.rs:243-245 | Picks a top list: descending counts, right counts, nothing omitted that beats a listed content |
| TopLikes.GroupsAre | social_api/src/infrastructure/postgres/like_repository.rs:236-243 | A content has a group exactly if some like of it is of the kind and not older than the window, and its count is the number of users with such a like |
| TopLikes.GroupsOfAllTime | social_api/src/infrastructure/postgres/like_repository.rs:236-243 | Without a window the count of a group is the single-item count |
| TopLikes.TopListIs | social_api/src/infrastructure/postgres/like_repository.rs:233-246 | A top list in the terms of the table: right numbers, descending, and nothing left out that has more recent likes |
| TopLikes.TopCountsAreDetermined | social_api/src/infrastructure/postgres/like_repository.rs:243-245 | Any two answers of the query agree on the count at every position |
| Leaderboard.LeaderboardService.GetTopLikes | social_api/src/application/like_service.rs:396-484 | The whole new state and answer for every pattern of failing commands: hit, stale hit, miss, which canary is set and when a refresh starts |
| Leaderboard.LeaderboardService.Refresh | social_api/src/application/like_service.rs:432-455 | The whole new state after the background task, for every pattern of failing commands |
| Leaderboard.OtherWindowsAreRefused | social_api/src/application/like_service.rs:404-411 | A window is refused, with no command sent, exactly if it is none of 24h, 7d, 30d and all |
| Leaderboard.TopLikesFailExactlyIf | social_api/src/application/like_service.rs:413-476 | A request for a known window fails exactly if it misses and the query fails, a negative limit included, with the database's error and all keys as they were |
| Leaderboard.MissListsRecentLikes | social_api/src/application/like_service.rs:405-476 | A miss is answered with a list that counts exactly the likes of the kind at most 86400, 604800 or 2592000 seconds old, or all, at most 50 contents |
| LeaderboardSolo.SoloRequestIsTheCode | social_api/src/application/like_service.rs:396-484 | The interleavable steps of a request, not interleaved, have the effect and the answer of the code, for every outcome it allows |
| LeaderboardSolo.SoloRefreshIsTheCode | social_api/src/application/like_service.rs:432-455 | The same for a background refresh |
| Leaderboard.LeaderboardCache.AcquireRefreshLock | social_api/src/infrastructure/redis/like_repository.rs:309-331 | The lock is taken exactly if no earlier one is alive, and then for ten seconds |
| LeaderboardRuns.ServedListsAreTopLists | social_api/src/application/like_service.rs:412-483 | In every timed interleaving with likes coming and going, a served list was answered by a query of the run, as the top of the likes at that moment, for window and limit (cut at 50) of one earlier request |
| LeaderboardRuns.ServedListsInNumbers | social_api/src/application/like_service.rs:402-483 | In every timed interleaving a served list counts exactly the likes of the kind that were there when its query ran and at most 86400, 604800 or 2592000 seconds older than its request, or all, at most 50 contents |
| LeaderboardRuns.FreshExactlyWhileCanaryLives | social_api/src/infrastructure/redis/like_repository.rs:281-307 | A list found in the cache is the one written last before, served as fresh exactly if it was written less than 30 seconds earlier, or 300 if by a refresh of a window other than the day |
| LeaderboardAge.FreshAgeExactly | social_api/src/application/like_service.rs:412-483 | The likes a fresh list shows are younger than a bound, in all runs whose SETs come within a delay of their query, exactly if the bound is at least 30 seconds for the day, 300 for other windows, plus the delay |
| LeaderboardAge.StaleHasNoAgeBound | social_api/src/application/like_service.rs:417-462 | No bound holds for the age of what a stale list shows, however prompt the SETs |
| LeaderboardRuns.ServesOwnLimitsExactlyIfOne | social_api/src/infrastructure/redis/like_repository.rs:109-116 | Everyone is served the top for its own limit, in all runs, exactly if all who ask use one limit, those above 50 counting as 50 |
| LeaderboardRuns.RefreshRateBound | social_api/src/infrastructure/redis/like_repository.rs:320-330 | In any interval at most 1 + length / 10 background refreshes start |
| LeaderboardAge.RefreshesTenSecondsApart | social_api/src/infrastructure/redis/like_repository.rs:320-330 | A gap holds between any two background refreshes, in all runs, exactly if it is at most 10 seconds |
| LeaderboardRuns.RefreshesAnswerStaleHits | social_api/src/application/like_service.rs:417-424 | In every timed interleaving a refresh starts only where a list was found whose canary had died |

## Left out

- Routing, handlers, headers, error mapping, metrics, tracing, health checks and startup: no state of their own.
- SSE: events published by adds and removals, and the broadcast to clients, are not part of the model.
- `validate_user`, `get_like_status` and `get_batch_status`: each looks something up and copies it into the reply. The only state they change is a cached session, so no law over runs is theirs. (`Readme.md` claims negative caching for users too; the code caches only valid ones.)
- Rounding of `f64` and Lua numbers in the token bucket: the model is exact.
- Wrap-around of the breaker's `u32` failure counter, and the clock's range.
- Threads inside the breaker: a check, and a settling, is one step of an interleaving, although the code makes them of several atomic loads and stores. The refinement and the outage bound are about calls made one after another.
- Cancellation of a task half way: it would leave a validator key locked for good.
- A command that takes effect although its reply is lost: a failing command changes nothing here.
- Pipelined commands (INCR or DECR with its EXPIRE, the SET of leaderboard data with its canary) are one step; the lifetime of a counter is an expiry that may come at any time.
- Several processes: `flight_locks` and the validator's lock set belong to one process, and so do the interleavings.
- A batch interleaved with other operations appears in its pieces for one key; the other keys it lists are not shown.
- Overflow of `limit + 1` in pagination, and walks with a page limit of 0, which never get past the panic.
- Injectivity of the string keys and of the cursor encoding is assumed by using the encoded values themselves.
- RateLimit.LazyRefinesEager: for windows of at most an hour, beyond which it is false.
