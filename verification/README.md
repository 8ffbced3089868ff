# A model of the gRPC user service, with proofs

The service keeps users in PostgreSQL, caches them in Redis (cache-aside, loads shared through single-flight) and
limits request rates with a token bucket that a Lua script keeps in the same Redis. This project models these parts
in Dafny and proves what they guarantee, and exactly where the guarantees stop. `dafny verify dfyconfig.toml` checks
everything.

## What is where

| files | what they model |
|---|---|
| `TokenLedger`, `TokenBucket` | the Lua script as a function of the stored bucket, and runs of it on one key that stays |
| `BucketExpiry` | the same runs with the 60-second expiry of the key, and EVAL lagging behind TIME |
| `ExpiringRuns` | denied requests and changed parameters on such runs |
| `Overtaking` | when requests that overtake each other break the plain window bound |
| `Outages` | windows of such runs in which any TIME may have failed |
| `Redis`, `Keys`, `SharedStore` | one Redis store with typed values and expiry, the keys, mixed runs of cache and limiters |
| `RateLimiter`, `LimiterProtocol` | the interceptor and the Gin middleware; any number of calls for which TIME and EVAL are separate steps that may fail |
| `CallerView` | how many calls of a burst, and after a pause, either limiter lets through |
| `CacheProtocol`, `SingleFlight`, `CacheStaleness`, `CacheAgreement`, `CacheLimits` | GetByID, Update and Delete of the cached repository as interleaved steps |
| `CachedRepository` | the same repository one call at a time, as a class, against the plain repository |
| `UninterruptedCalls` | the two models of the cached repository against each other |
| `Postgres`, `UserUsecase` | the users table and its repository; check-then-act on the email |
| `Regex`, `SearchFilter`, `LikeEscape`, `Paging` | the search pipeline: filter, escaping, LIKE, pages in 64-bit arithmetic |
| `Metrics` | the percentiles and the success rate of the benchmark reporter |
| `Options`, `Domain`, `Integers` | options and results, the user entity and the errors, Go's integer division, the ceiling of a real |

Object code is written as classes (`Redis.Server`, `RateLimiter.Interceptor`, `CachedRepository.RedisUserCache`,
`CachedRepository.CachedUserRepository`, `Postgres.UserRepoPG`, `UserUsecase.Usecase`, `Metrics.MetricsCollector`)
whose methods are proved against functions; the theorems are about those functions and about runs of them.

## Main results

- **Rate limiter.** On a fresh key that stays the level before each request is the least slack of all windows ending
  there; so a request is allowed exactly when all windows ending at it conform, and a schedule is never denied exactly
  when all its windows conform. More rate or capacity never admits fewer requests on any prefix, even across expiries of
  the key. With stamps out of order the window bound grows by the backward movement of the stamps; the plain bound
  fails as soon as stamps can move back at all, for every rate and capacity. When EVAL comes at most d seconds after
  TIME, the expiry of the key is invisible on all runs exactly when the bucket refills in 60 - d seconds, rounded down
  (for the default parameters that is d <= 58). Under exactly the same condition denied requests leave no trace on runs
  with stamps in order; without it they show, because a denial keeps an empty bucket from expiring. For any
  interleaving of calls and any failures each key behaves like a bucket of its own, and a window lets through at most
  one full bucket, one more for each failed TIME and each expiry that the refill does not cover, the refill over the
  movement of the stamps, and the calls left without an answer.
- **What clients of a limiter see.** On a fresh key exactly the first burstCapacity calls at once are handled; when they
  have used the bucket up, exactly requestsPerSecond times the seconds since, up to burstCapacity.
- **Cache, sequentially.** As long as DEL succeeds, the cached repository answers as the plain one, under arbitrary
  expiry and failures of GET and SET. What is set is read back exactly until its TTL is over. A call that nobody
  interrupts does in the interleaved protocol what it does here.
- **Cache, concurrently.** Every row returned was that of the id asked for, at most one TTL and two flights before, and
  that bound is attained. A cached row that differs from the database row has one of three causes: a commit since it
  was stored whose DEL is pending, one whose DEL was lost, or a load that straddles a commit. Reads are not
  linearizable; a run shows it. Nothing gets stuck before all calls have returned and all DELs are sent.
- **Search.** The filter's language is characterised; the escaped pattern means "contains this text up to case"
  exactly for queries without a backslash, hence for all queries the filter lets through. A client of ListUsers who asks
  for page 1 and then for as many pages as it names sees each user that contains the trimmed query exactly once.
- **Emails** stay unique under every interleaving, and it is known exactly when only the UNIQUE constraint does it.

## Assumptions

- Encoding a user as JSON and decoding it again gives the same user.
- GORM's `Save` writes all fields, inserts when no row has the id, and is a plain insert when the id is zero; GORM
  omits a non-positive OFFSET and a negative LIMIT; `First` takes the row with the least id.
- A failed database command changes no row; a refused insert still consumes a number of the sequence.
- A Redis key is found up to and including its expiry instant, and not after. The order of the rows of a query is
  arbitrary but the same for all pages (there is no ORDER BY).
- Floating-point numbers are reals; the seconds TIME reports are the clock rounded down.

## Where the code differs from its comments and documentation

- The comment at internal/adapter/grpc/middleware/rate_limit.go:86 says that updating `last_refill` on denial prevents
  token accumulation. That update does not: on a key that stays, denied requests with stamps in order change nothing
  (`DeniedRequestsInvisible`). What a denial can take from later requests comes from the EXPIRE at line 88, which keeps
  a bucket alive that would have come back full (`DenialProlongs`); that happens exactly for parameters that do not
  refill the bucket in the minute less the delay of EVAL (`DenialsInvisibleIff`).
- docs/rate-limiting.md:170 shows a fractional `last_refill`; the code passes whole seconds.
- docs/rate-limiting.md:168 gives one key format with method and path for all; gRPC keys have the full method only.
- `isValidSearchChar` allows `#` (pkg/security/validator.go:65), but the pattern table never lets it through.
- A TIME that fails is not treated as an error: its zero value is used as the timestamp (`FailedTimeFillsBucketIff`).

## Model

| member | source | states |
|---|---|---|
| TokenBucket.EvalWellFormed | internal/adapter/grpc/middleware/rate_limit.go:73-88 | whatever the stamp, the script keeps the stored tokens between 0 and the capacity |
| TokenBucket.ClosedForm | internal/adapter/grpc/middleware/rate_limit.go:67-90 | on a fresh key with stamps in order, the level before request n is the minimum over k of capacity + rate * (t_n - t_k) minus the requests k..n-1 admitted |
| TokenBucket.Conformance | internal/adapter/grpc/middleware/rate_limit.go:67-90 | request n is allowed if and only if every window ending at n, counting it, stays within capacity + rate * length |
| TokenBucket.NeverDeniedIffConforms | internal/adapter/grpc/middleware/rate_limit.go:67-90 | a schedule is never denied if and only if all its windows conform, independently of what was admitted |
| TokenBucket.MonotoneInConfiguration | docs/rate-limiting.md:459-468 | on a key that stays, raising rate, capacity or starting level never lowers the number of requests admitted on any prefix of the same request times, in order or not |
| TokenBucket.SingleDecisionsMayFlip | internal/adapter/grpc/middleware/rate_limit.go:73-90 | a concrete run in which a higher rate denies a request the lower rate allows |
| TokenBucket.OutOfOrderBound | internal/adapter/grpc/middleware/rate_limit.go:69-88 | on a key that stays, for stamps in any order a window admits at most capacity + rate * (last - first + total backward movement) |
| TokenBucket.OvertakingExceedsWindow | internal/adapter/grpc/middleware/rate_limit.go:95-102 | a concrete run with an overtaken request that exceeds the plain window bound and attains the bound with backward movement |
| TokenBucket.InOrderBound | internal/adapter/grpc/middleware/rate_limit.go:69-88 | on a key that stays, with stamps in order the bound is capacity + rate * length |
| Overtaking.OvertakingBreaksPlainBound | internal/adapter/grpc/middleware/rate_limit.go:95-102 | for every positive rate, whole capacity and whole backward movement of at least one second, a run with that backward movement admits more than capacity + rate * span |
| Overtaking.PlainBoundIff | internal/adapter/grpc/middleware/rate_limit.go:69-102 | on a key that stays the plain bound holds for all windows of all runs of whole-second stamps (positive rate, whole capacity) whose total backward movement is at most B if and only if B is 0 |
| TokenBucket.RefillsCompose | internal/adapter/grpc/middleware/rate_limit.go:73-75 | two capped refills in a row are one capped refill |
| TokenBucket.DenialInvisibleIff | internal/adapter/grpc/middleware/rate_limit.go:73-87 | on a key that stays, one denial is unnoticeable from then on if and only if its stamp is not before the last refill |
| TokenBucket.DeniedRequestsInvisible | internal/adapter/grpc/middleware/rate_limit.go:73-87 | on a key that stays, erasing any set of denied requests from a run in order leaves every other level and decision unchanged |
| BucketExpiry.ExpiryInvisible | internal/adapter/grpc/middleware/rate_limit.go:82-88 | if no request meets an expired key, or EVAL comes at most d seconds after TIME and floor(60 - d) * rate >= capacity, the expiring key decides as one that never expires |
| BucketExpiry.DrainTwiceAllowed | internal/adapter/grpc/middleware/rate_limit.go:69-88 | an expiring bucket can be emptied completely, and again less than a second after the minute, with stamps max(0, floor(60 - d)) seconds apart |
| BucketExpiry.ExpiryInvisibleIff | internal/adapter/grpc/middleware/rate_limit.go:69-95 | for whole capacities and every d >= 0, expiry is invisible on all runs with EVAL at most d seconds after TIME if and only if floor(60 - d) * rate >= capacity |
| BucketExpiry.NoDelayWholeMinute | internal/adapter/grpc/middleware/rate_limit.go:69-95 | for simultaneous TIME and EVAL that condition is 60 * rate >= capacity |
| BucketExpiry.OnTimeIsRoundedDown | internal/adapter/grpc/middleware/rate_limit.go:95 | every stamp that the model calls on time is an instant no more than d seconds before EVAL, rounded down to whole seconds |
| ExpiringRuns.PunctualDenialsInvisible | internal/adapter/grpc/middleware/rate_limit.go:67-90 | on the expiring key, with EVAL at most d seconds after TIME, stamps in order and floor(60 - d) * rate >= capacity, erasing any set of denied requests changes no other request's answer and bucket |
| ExpiringRuns.DenialProlongs | internal/adapter/grpc/middleware/rate_limit.go:84-88 | otherwise some run, with stamps in order, has a denied request whose EXPIRE makes a later request denied that is allowed without it |
| ExpiringRuns.DenialsInvisibleIff | internal/adapter/grpc/middleware/rate_limit.go:67-90 | for whole capacities and every d >= 0, denied requests leave no trace on all runs with stamps in order and EVAL at most d seconds after TIME if and only if floor(60 - d) * rate >= capacity |
| ExpiringRuns.NoDelayInOrder | internal/adapter/grpc/middleware/rate_limit.go:95 | with TIME and EVAL at one instant stamps are always in order |
| ExpiringRuns.MonotoneAcrossExpiry | docs/rate-limiting.md:459-468 | raising rate or capacity never lowers the number of requests admitted on any prefix of the same requests, whatever their instants and stamps and however often the key expires |
| Redis.Server.EvalTokenBucket | internal/adapter/grpc/middleware/rate_limit.go:60-91 | the imperative script writes the bucket and expiry, and answers, as the function the theorems are about |
| RateLimiter.Interceptor.UnaryInterceptor | internal/adapter/grpc/middleware/rate_limit.go:40-129 | disabled: handler called, store untouched; enabled: one execution on the key of method and client with the configured rate and capacity, handler called unless the script answers deny (what that lets through: CallerView.GrpcBurst, CallerView.GrpcPause) |
| RateLimiter.GinMiddleware | internal/adapter/gin/middleware/rate_limiter.go:14-95 | the same with the Gin key and the fixed parameters 10 and 20; without limiter or client every request passes |
| CallerView.GrpcBurst | internal/adapter/grpc/middleware/rate_limit.go:40-128 | of any number of calls of one client to one method that arrive at once on a key with nothing live, exactly the first burstCapacity are handled |
| CallerView.GrpcPause | internal/adapter/grpc/middleware/rate_limit.go:40-128 | once at least burstCapacity calls have used the bucket up, s seconds later, within the minute, exactly as many calls at once are handled as whole tokens fit in min(burstCapacity, requestsPerSecond * s) |
| CallerView.GinBurst | internal/adapter/gin/middleware/rate_limiter.go:14-95 | of any number of requests of one client for one path that arrive at once on a key with nothing live, exactly the first 20 are handled |
| CallerView.GinPause | internal/adapter/gin/middleware/rate_limiter.go:14-95 | once at least 20 have used the bucket up, exactly 10 are handled one second later and 20 from two seconds on, within the minute |
| RateLimiter.FailedTimeFillsBucketIff | internal/adapter/grpc/middleware/rate_limit.go:95-102 | after a call whose TIME failed but whose EVAL went through, the next call finds a full bucket, whatever was left, if and only if rate * 62135596800 >= capacity |
| RateLimiter.DefaultsHideExpiryIff | internal/adapter/gin/middleware/rate_limiter.go:32-33 | with rate 10 and capacity 20, also the defaults of the configuration, expiry is invisible on all runs with EVAL at most d seconds after TIME if and only if d <= 58 |
| Outages.WindowBound | internal/adapter/grpc/middleware/rate_limit.go:69-102 | whatever TIMEs fail and whenever the key expires, a window admits at most (1 + f + x) * capacity plus the refill over the forward movement from each answered TIME to the next; f counts failed TIMEs, x the expiries, which count only if floor(60 - d) * rate < capacity |
| Outages.TravelIsForward | internal/adapter/grpc/middleware/rate_limit.go:69-102 | where no TIME failed, that movement is the span of the stamps plus their backward movement |
| Outages.WindowBoundAttained | internal/adapter/grpc/middleware/rate_limit.go:95-102 | for whole capacities with rate * 62135596800 >= capacity, one failed TIME does let twice the capacity through at a single instant, which is what the bound allows |
| LimiterProtocol.KeyRunsAlone | internal/adapter/grpc/middleware/rate_limit.go:48-128 | in every interleaving of calls, the decisions on one key are those of a single expiring bucket fed with the executions on that key |
| LimiterProtocol.PerKeyBound | internal/adapter/grpc/middleware/rate_limit.go:48-128 | between any two points of any run of the two-step protocol, the handler calls on a key exceed its missing answers by at most (1 + f + x) * capacity plus the refill over the forward movement from each answered TIME to the next, with f and x as in Outages.WindowBound; if f and x are 0, by at most capacity + rate * (span + backward movement of the stamps) |
| LimiterProtocol.LateCallExceedsWindow | internal/adapter/grpc/middleware/rate_limit.go:82-102 | a run of two calls, the second of which reaches EVAL 61 seconds after TIME: both are handled on capacity 1 with equal stamps, whatever the rate, so without a bound on the delay the plain window bound fails |
| LimiterProtocol.FailsOpen | internal/adapter/grpc/middleware/rate_limit.go:104-128 | on every key handler calls are at least the granted tokens and at least the missing answers, and at most their sum |
| LimiterProtocol.InterceptorIsThreeSteps | internal/adapter/grpc/middleware/rate_limit.go:93-128 | three uninterrupted steps of the protocol do to the store what one call of the interceptor does, and answer alike |
| Keys.DecimalInjective | internal/adapter/cache/user_cache.go:48-50 | printing ids in decimal is injective, negative ids included |
| Keys.KeyExamples | internal/adapter/cache/user_cache.go:48-50 | keys of all three kinds written out |
| Keys.CacheKeyInjective | internal/adapter/cache/user_cache.go:48-50 | different ids have different cache keys |
| Keys.GrpcKeyInjective | internal/adapter/grpc/middleware/rate_limit.go:56 | for methods without a colon, equal bucket keys mean equal method and equal client |
| Keys.ColonInMethodCollides | internal/adapter/grpc/middleware/rate_limit.go:56 | with a colon in the method two different calls share a key |
| Keys.GinKeySharedIff | internal/adapter/gin/middleware/rate_limiter.go:21-28 | for methods without a colon, two Gin calls share a bucket if and only if they have the same method and the same path and address, or a part of one address up to a colon at the end of the other path |
| Keys.GinKeyInjective | internal/adapter/gin/middleware/rate_limiter.go:21-28 | so addresses without a colon keep buckets apart |
| Keys.GinKeysCollide | internal/adapter/gin/middleware/rate_limiter.go:21-28 | two requests from different version 6 addresses for different paths that share a bucket |
| Keys.KindsOfKeys | internal/adapter/gin/middleware/rate_limiter.go:28 | cache, gRPC and Gin keys each are of their own kind, and no string is of two kinds |
| SharedStore.OthersInvisible | cmd/api/di/container.go:51-73 | erasing the other components' commands from a mixed run changes none of a component's entries |
| SharedStore.RepliesUndisturbed | cmd/api/di/container.go:51-73 | nor any reply a component gets |
| SharedStore.NoTypeErrors | cmd/api/di/container.go:51-73 | no GET and no script of a mixed run meets a value of the wrong type |
| SharedStore.ReadsBackWhatWasSet | cmd/api/di/container.go:51-73 | in any mixed run a user that was set is read back until its TTL is over or its id is set or deleted again, and after its TTL it is missed |
| SharedStore.DeletedStaysAway | cmd/api/di/container.go:51-73 | in any mixed run a deleted id is missed until it is set again |
| SingleFlight.OneLoadPerId | internal/adapter/repository/cached/user.go:52-78 | in every reachable state at most one load per id is under way in an instance |
| CacheProtocol.CallsKeepIds | internal/adapter/repository/cached/user.go:40-84 | the c-th call to arrive keeps the id it arrived with |
| SingleFlight.SharersAgree | internal/adapter/repository/cached/user.go:54-84 | calls that shared a load had asked for the same id and returned the same result |
| SingleFlight.SomeStepEnabled | internal/adapter/repository/cached/user.go:40-84 | while a call is outstanding some step can be taken |
| SingleFlight.StuckIffAllDone | internal/adapter/repository/cached/user.go:40-124 | in every reachable state no step of what has begun is enabled if and only if every call has returned and every writer has sent its DEL |
| SingleFlight.FinitelyManySteps | internal/adapter/repository/cached/user.go:40-84 | without new calls or writes only a bounded number of steps is left, in whatever order |
| CacheStaleness.BoundedStaleness | internal/adapter/repository/cached/user.go:40-124 | under any interleaving, sharing, expiry and cache failures, what a call returns was the database's row (or absence) for the id the call arrived with, at some moment in [t - ttl - 2D, t] |
| CacheStaleness.QuietReadsAreCurrent | internal/adapter/repository/cached/user.go:40-124 | if the id the call arrived with was not changed in that span, the call returns its current row |
| CacheStaleness.HitIsRecent | internal/adapter/cache/user_cache.go:78-98 | in every reachable state a live cache entry holds a row that was its id's at some moment at most one TTL and one flight ago |
| CacheAgreement.CauseOfDisagreement | internal/adapter/repository/cached/user.go:65-124 | in every reachable state a cached row other than the database row implies a commit of the id since it was stored whose own DEL is pending, or one whose own DEL was lost, or that the load that stored it straddles a commit of the id |
| CacheAgreement.AgreesUnlessCrossed | internal/adapter/repository/cached/user.go:65-124 | if every DEL succeeds, an entry whose load straddles no commit agrees with the database unless the id was committed since it was stored by a writer that has yet to send its DEL |
| CacheLimits.OldRowAfterCompletedUpdate | internal/adapter/repository/cached/user.go:52-84 | a run in which a call that began after an update was complete returns the old row, which also stays cached |
| CacheLimits.StalenessBoundTight | internal/adapter/repository/cached/user.go:40-124 | a run in which the bound t - ttl - 2D is attained |
| CachedRepository.RedisUserCache.Get | internal/adapter/cache/user_cache.go:53-75 | a hit is the user under the id's key and still live; a miss means that nothing live is there; a failed call or an entry that is no user is an error, not a miss |
| CachedRepository.RedisUserCache.Set | internal/adapter/cache/user_cache.go:78-98 | after success a GET of the user's id hits with that user if and only if it comes no later than the TTL after the SET, and misses otherwise; GETs of other ids are as before; a nil user or a failed call changes nothing and is an error |
| CachedRepository.RedisUserCache.Delete | internal/adapter/cache/user_cache.go:101-111 | after success every GET of the id misses, GETs of other ids and all other keys are as before; a failed call changes nothing |
| CachedRepository.RedisUserCache.DeleteMultiple | internal/adapter/cache/user_cache.go:114-131 | after success every GET of one of the ids misses and all others are as before; no ids is no error even without Redis |
| CachedRepository.GetAfterSet | internal/adapter/cache/user_cache.go:53-98 | SET followed by GET: that user until its TTL is over, a miss afterwards, no change for other ids |
| CachedRepository.GetAfterDel | internal/adapter/cache/user_cache.go:53-131 | DEL followed by GET: a miss for the ids deleted, no change for others |
| CachedRepository.CachedUserRepository.GetByID | internal/adapter/repository/cached/user.go:40-85 | result and new state of the double-checked read, with each outside call failing or not |
| CachedRepository.CachedUserRepository.Update | internal/adapter/repository/cached/user.go:93-107 | writes the row, then deletes the entry of the given id only if the write succeeded |
| CachedRepository.CachedUserRepository.Delete | internal/adapter/repository/cached/user.go:110-124 | the same for deletion |
| CachedRepository.LoadFillsCache | internal/adapter/repository/cached/user.go:40-85 | a read is answered by the first of the two GETs that hits, then nothing changes; otherwise by the database, and a row found is then in the cache for one TTL if the SET goes through |
| CachedRepository.WriteInvalidates | internal/adapter/repository/cached/user.go:93-124 | an update or deletion that succeeds makes GETs of its id miss unless the DEL fails, in which case, as when it fails itself, the cache is left as it was |
| UninterruptedCalls.GetByIDUninterrupted | internal/adapter/repository/cached/user.go:40-85 | GetByID with no load of its id under way takes a few steps of the interleaved protocol, after which cache, database and answer (row, not found or database down) are those of the sequential repository |
| UninterruptedCalls.UpdateUninterrupted | internal/adapter/repository/cached/user.go:93-107 | so does Update |
| UninterruptedCalls.DeleteUninterrupted | internal/adapter/repository/cached/user.go:110-124 | and Delete |
| UninterruptedCalls.ReachableHoldsRows | internal/adapter/repository/cached/user.go:65-75 | cache entries hold rows in every reachable state |
| CachedRepository.GetRefines | internal/adapter/repository/cached/user.go:40-85 | from a coherent cache a read answers as the database (also while that is down) and leaves the cache coherent |
| CachedRepository.UpdateRefines | internal/adapter/repository/cached/user.go:93-107 | an update whose DEL succeeds keeps every cached entry the current row of its id |
| CachedRepository.DeleteRefines | internal/adapter/repository/cached/user.go:110-124 | so does a deletion |
| CachedRepository.CachedRefinesPlain | internal/adapter/repository/cached/user.go:35-129 | over every sequential run of all six operations, List included, in which DEL succeeds every call answers as the plain repository, and cached entries stay current |
| CachedRepository.LostDelAfterUpdate | internal/adapter/repository/cached/user.go:99-104 | if the DEL of an update is lost, the cache stays coherent if and only if the id had no entry or the row did not change |
| CachedRepository.LostDelAfterDelete | internal/adapter/repository/cached/user.go:116-121 | if the DEL of a deletion is lost, if and only if the id had no entry |
| Postgres.CommandsKeepSchema | internal/adapter/repository/postgres/user.go:40-93 | inserting, saving and deleting keep emails unique and rows under their ids |
| Postgres.UserRepoPG.Create | internal/adapter/repository/postgres/user.go:40-57 | success, exactly when the user is not nil, the database answers, the next id is free and the email is free, adds one row under that id and changes no other; the sequence advances whenever the database answers; an error changes no row and its kind says why; ids and emails stay unique |
| Postgres.UserRepoPG.Update | internal/adapter/repository/postgres/user.go:60-78 | success, exactly when the user is not nil, the database answers and no other row holds the email, sets all fields of the row of the id, whether it existed or not (of a new id if it was zero), and changes no other; an error changes no row and its kind says why; ids and emails stay unique |
| Postgres.UserRepoPG.Delete | internal/adapter/repository/postgres/user.go:81-93 | success, exactly when the id is above zero and the database answers, even for an absent row, means the row is gone and all others are as before; an error changes nothing and its kind says why |
| Postgres.FindByIdIff | internal/adapter/repository/postgres/user.go:96-112 | a row is found, not found or the database down: each exactly when it is so |
| Postgres.UserRepoPG.List | internal/adapter/repository/postgres/user.go:134-184 | the answer of ListRows (Postgres.ListAnswers), computed with the loops of the repository's List method |
| Postgres.ListRefusedIff | internal/adapter/repository/postgres/user.go:134-140 | a search is refused with a validation error if and only if the filter refuses the query, and with an internal error if and only if the database is down then |
| Postgres.ListAnswers | internal/adapter/repository/postgres/user.go:134-184 | the total is the number of matching rows, and page k is the part of all answers together from (k - 1) * limit on, as long as that offset fits in 64 bits |
| Postgres.SearchFindsExactly | internal/adapter/repository/postgres/user.go:144-171 | the answers to pages 1..ceil(total / limit) of an accepted search list exactly the users whose name or email contains the trimmed query up to case, each once |
| Regex.AnyWordFound | pkg/security/validator.go:18-22 | an alternation of words is found exactly where one of the words occurs up to case |
| Regex.MustContainSound | pkg/security/validator.go:19-25 | if the analysis says a pattern needs a character, every match has it |
| SearchFilter.ValidateSearchQuery | pkg/security/validator.go:29-58 | the imperative filter with its two loops computes the specification, which SearchFilter.NormalForm and SearchFilter.TrimUnique determine |
| SearchFilter.NormalForm | pkg/security/validator.go:16-66 | accepted are exactly the queries of at most 100 bytes whose trimmed text has only allowed characters, no SQL or delay keyword, no "--" and no "#"; the trimmed text is passed on; longer queries, and only they, are too long |
| SearchFilter.TrimmedParts | pkg/security/validator.go:40 | the query is its trimmed text with nothing but white space to the left and right, and the trimmed text has none at its ends |
| SearchFilter.TrimUnique | pkg/security/validator.go:40 | of every text that is some middle without white space at its ends between white space, trimming leaves that middle |
| SearchFilter.CleanPassesUnchanged | pkg/security/validator.go:29-58 | a clean query of at most 100 bytes without white space at its ends is passed on unchanged |
| SearchFilter.CharLengthIsUtf8 | pkg/security/validator.go:35 | a character counts as the fewest bytes whose UTF-8 payload it fits in |
| SearchFilter.Utf8LengthAdds | pkg/security/validator.go:35 | and the length of a text is the sum over its characters |
| SearchFilter.CommentsFound | pkg/security/validator.go:21 | among allowed characters the comment pattern only finds "--" and "#" |
| SearchFilter.ScriptsNeverFound | pkg/security/validator.go:25 | among allowed characters the script pattern finds nothing |
| SearchFilter.TautologiesNeverFound | pkg/security/validator.go:19-20 | nor do the two tautology patterns |
| SearchFilter.ValidationIdempotent | pkg/security/validator.go:29-58 | what validation passes on it accepts again, unchanged |
| SearchFilter.HashNeverAccepted | pkg/security/validator.go:65 | the character filter allows "#", but no accepted query has one |
| SearchFilter.AsciiIsFaithful | pkg/security/validator.go:29-66 | the conditions put on Unicode's tables can be met: the ASCII tables meet them |
| LikeEscape.TwoPassesAreOne | pkg/security/validator.go:69-79 | the two replacement passes equal one escape per character |
| LikeEscape.PatternMeansContains | internal/adapter/repository/postgres/user.go:146-152 | for a query without backslash the pattern matches a text if and only if the text contains the query up to case |
| LikeEscape.AcceptedSearchMeansContains | internal/adapter/repository/postgres/user.go:136-152 | so for every query the validator accepts |
| LikeEscape.SanitizeSoundIffNoBackslash | pkg/security/validator.go:69-79 | escaping preserves the meaning on all texts if and only if the query has no backslash |
| Paging.PagesAreCeiling | internal/usecase/user/usecase.go:201-205 | both page counts are the ceiling of total / limit |
| Paging.ClampsAreDefaults | internal/usecase/user/usecase.go:174-183 | pages and limits in range pass unchanged; otherwise page 1, ten rows by default, a hundred at most |
| Paging.PageCountsAgreeIff | internal/domain/user/pagination.go:12-16 | the two page counts agree if and only if the limit is not negative; without a positive limit one is 0, the other the limit |
| Paging.PagesPartition | internal/adapter/repository/postgres/user.go:160-171 | pages 1..TotalPages concatenate to the result, all but the last are full, later ones are empty while their offset fits |
| Paging.PageShows | internal/adapter/repository/postgres/user.go:169-171 | page k shows the rows from (k - 1) * limit on, at most limit of them, while that offset fits in 64 bits |
| Paging.OffsetExactIff | internal/adapter/repository/postgres/user.go:169 | the 64-bit offset is exact if and only if (page - 1) * limit is below 2^63 |
| Paging.PagePastEnd | internal/adapter/repository/postgres/user.go:160-171 | a page past the end is empty if and only if its offset modulo 2^64 lies in [number of rows, 2^63); with the offset modulo 2^64 zero or from 2^63 on it repeats page 1, with one inside the result it shows the rows there |
| Paging.OverflowRepeatsFirstPage | internal/adapter/repository/postgres/user.go:169 | a concrete page past the end that repeats page 1 |
| UserUsecase.ConstraintNeededIff | internal/usecase/user/usecase.go:65-131 | an uninterrupted call is refused by the UNIQUE constraint if and only if it updates to the empty email and another row holds that |
| UserUsecase.DuplicateReportedIff | internal/usecase/user/usecase.go:73-117 | "already exists" is answered if and only if a valid non-empty email is held by another row |
| UserUsecase.SucceedsIff | internal/usecase/user/usecase.go:65-131 | an uninterrupted call succeeds if and only if it is valid, the database answers, nobody else holds its email and, to create, the next id is free |
| UserUsecase.UnavailableIff | internal/usecase/user/usecase.go:73-131 | a database that is down is reported exactly when it is met, at the lookup or at the write |
| UserUsecase.InvalidIff | internal/usecase/user/dto.go:5-18 | a validation error is answered if and only if the request breaks the validator's tags |
| UserUsecase.WriteStores | internal/usecase/user/usecase.go:86-131 | also in interleaved runs, a write stores exactly the name and email it was called with, under a free or the given id, and a failed one changes no row |
| UserUsecase.EmailsStayUnique | internal/adapter/repository/postgres/user.go:28-32 | emails are unique in every reachable state of any interleaving |
| UserUsecase.RefusalMeansRace | internal/usecase/user/usecase.go:73-131 | when the constraint refuses a checked call, its email is empty or was taken between check and write |
| UserUsecase.TwoCreationsMayRace | internal/usecase/user/usecase.go:73-93 | two creations of one email can both pass the check; the second then fails with an internal error |
| UserUsecase.Usecase.Create | internal/usecase/user/usecase.go:65-95 | success adds one row with exactly that name and email under a free id; an error changes no row; a validation error means exactly that the name is not of 3 to 100 characters or the email is none; table and result are those of UserUsecase.SucceedsIff |
| UserUsecase.Usecase.Update | internal/usecase/user/usecase.go:98-131 | success leaves exactly that name and email under the given id and all other rows as before; an error changes no row; a validation error means exactly that the id is zero, a given name not of 3 to 100 characters or a given email none |
| UserUsecase.Usecase.ListUsers | internal/usecase/user/usecase.go:172-218 | the answer of ListPage (UserUsecase.PageAnswers), computed with the clamping and the loop of the original's ListUsers |
| UserUsecase.ClientSeesExactly | internal/usecase/user/usecase.go:172-218 | a client who asks for page 1 and then for as many pages as it names, with any page size, is shown each user whose name or email contains the trimmed query up to case, and nobody else, exactly once; their number is the total |
| UserUsecase.PageAnswers | internal/usecase/user/usecase.go:172-218 | each page repeats the page and limit asked for and shows its part of what all pages show |
| Metrics.BetweenNeighbours | test/benchmark/metrics_reporter.go:143-153 | an interpolated value lies between its two neighbours |
| Metrics.PercentileMonotone | test/benchmark/metrics_reporter.go:132-154 | the percentile of a sorted list is monotone in p and stays within the list |
| Metrics.PercentileOnTheLine | test/benchmark/metrics_reporter.go:143-153 | for p between 0 and 1 the percentile is the point at p * (n - 1) on the line through the sorted latencies, rounded down |
| Metrics.PercentileAtEnds | test/benchmark/metrics_reporter.go:136-141 | for other p it is the first or the last latency |
| Metrics.MetricsInOrder | test/benchmark/metrics_reporter.go:87-116 | Min <= P50 <= P90 <= P95 <= P99 <= P999 <= Max, and the truncated mean lies in [Min, Max] |
| Metrics.MetricsCollector.RecordLatency | test/benchmark/metrics_reporter.go:63-66 | appends the latency and keeps total = latencies + errors |
| Metrics.MetricsCollector.RecordError | test/benchmark/metrics_reporter.go:69-72 | counts the error and keeps that balance |
| Metrics.MetricsCollector.SuccessRate | test/benchmark/metrics_reporter.go:156-163 | because operations are latencies plus errors, the rate is the share of latencies in percent, between 0 and 100, and 100 if and only if something succeeded and nothing failed |
| Metrics.MetricsCollector.CalculateMetrics | test/benchmark/metrics_reporter.go:75-116 | count, total and mean are those of the recorded latencies in any order, min and max are recorded and bound all others, the percentiles are those of the sorted latencies at 0.5, 0.9, 0.95, 0.99 and 0.999; none recorded gives zeros |

## Left out

- Rounding of floating-point numbers, including Lua's conversion of numbers to strings in HMSET.
- Client addresses: taken as given; how they are found in headers or the peer is not modelled.
- Automatic retries of the Redis client, which could execute a script twice for one call.
- Panics and Forget in single-flight; a cancelled context appears as a failed call.
- The interleaved cache protocol always has a cache; a repository without one is covered by the sequential class.
- The interleaved cache protocol leaves out emails: rows are written as the writers say. UserUsecase covers them.
- Count and Find of one List see the same table here; in the service a write may fall between them.
- Column lengths, timestamps columns, and the SQLite variant of the search.
- Strings that are not valid UTF-8; Unicode's tables are parameters with the properties used stated in Faithful.
- The email and name rules of the validator library beyond lengths: an arbitrary rule that refuses the empty email.
- GetUser and DeleteUser of the use case: a check of the id in front of the repository call.
- Error texts and their mapping to status codes, handlers, configuration loading, logging, start-up and shutdown.
- Throughput and printing of the benchmark reports, and 64-bit overflow of their sums.
