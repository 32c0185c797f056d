# url-shortener — a Dafny model of its core

The system is a URL-shortening web service written in Go. It maps long URLs
to short slugs, answers `GET /{slug}` with a `302 Found` redirect, and keeps a
per-slug access count. The repository holds several generations of the same
service side by side (`internal/api`, `internal/adapters`, `internal/data`,
`internal/core`), which do not compile together; each file is modelled on its
own terms.

The model covers:

- **The access-count write-behind pipeline.** Each redirect increments a
  Redis counter under `access:<slug>` (`IncrementAccess`, with a bounded retry
  in `internal/data/infra`, a single swallowed `INCR` in `rdstore`). A worker
  pass lists every counter key with a cursor `SCAN`, drains each one with
  `GETDEL`, adds the drained count to the Postgres `access_count` of the slug,
  and on a database failure restores the drained amount with `INCRBY`. Both
  worker generations are modelled as sequential passes over the scanned keys;
  the central property is conservation: for every key whose slug has a row
  and whose counter lies in 0..2^31-1, counter plus durable count is the same
  after a pass unless a restore itself fails. A count is lost when the slug
  has no row (the UPDATE matches nothing and reports no error) or when the
  drained counter is negative (it is dropped, not written back), and a count
  above 2^31-1 is written truncated to int32 (`AccessSync.OversizedCountWraps`).
- **The URL cache.** The TTL rule for `url:<slug>` entries, the cache-first
  `GetURL`, `LogRecentAccess` and the bounded most-recently-used list
  `url:recent` (remove every occurrence, push to the front, trim to 20).
- **The error taxonomy.** `AppError` kinds and constructor codes, `errors.Is`
  and `errors.As` over the unwrap chain, the string-typed `AppError` of
  `response.go`, and the error-to-status and error-body rules of
  `SendResponse` and `SendErrors`.
- **Services and repositories.** User create/update uniqueness rules, the
  partial-update merge `ApplyTo`, bounded slug-retry generation, the short-URL
  expiry rule and row-to-model mapping, over tables modelled as sequences of
  rows, with the database's failures given as parameters.
- **The redirect handlers and slug shape.** The three `handleRedirect`
  variants (cache first, database fallback, one counter increment per
  redirect) and the 10-character slug drawn from a 62-symbol alphabet, with
  the random source given as a sequence of indices.

Redis is the class `Redis.Store`, whose commands take a `fail` flag saying
whether the command fails; a failed command changes nothing. Postgres is
modelled by value tables and by the class `Durable.Database`. An HTTP
response is the class `Http.Writer`, which keeps Go's rule that the first
status written wins.

## Model

| member | source | states |
|---|---|---|
| WrapErrors.Unwrap | pkg/wrap_errors/errors.go:28-30 | unwrapping an error yields a strictly smaller error, so every unwrap chain is finite |
| WrapErrors.New | pkg/wrap_errors/errors.go:45-52 | the result is an `*AppError` carrying exactly the given message, kind, code and cause |
| WrapErrors.ConstructorCodes | pkg/wrap_errors/errors.go:54-80 | NotFoundErr, AlreadyExistsErr, ValidationErr, UnauthorizedErr and InternalErr give codes 404, 409, 400, 401 and 500 with their kinds, only InternalErr keeps a cause; UniqueViolationErr has code 0, reads as its message and unwraps to a plain error with the same text |
| WrapErrors.Chain | pkg/wrap_errors/errors.go:28-30 | the unwrap chain of an error is non-empty and starts with the error itself |
| WrapErrors.IsKindInChain | pkg/wrap_errors/errors.go:32-39 | `errors.Is(err, ErrX)` holds exactly when some error of the unwrap chain carries kind X, either as the sentinel itself or as an `*AppError` of that type |
| WrapErrors.AsApp | pkg/wrap_errors/errors.go:41-43 | `errors.As` finds an `*AppError` only in a chain where `errors.Is` also sees its kind, and an `*AppError` is found as itself |
| WrapErrors.AsAppFindsFirstApp | pkg/wrap_errors/errors.go:41-43 | `errors.As` finds nothing exactly when no error of the unwrap chain is an `*AppError`, and otherwise finds the first `*AppError` of the chain |
| WrapErrors.ContainsAt | pkg/wrap_errors/errors.go:102-108 | a substring present at any offset is found by the `strings.Contains` test |
| WrapErrors.ContainsOffset | pkg/wrap_errors/errors.go:102-108 | conversely, when `strings.Contains` holds, the substring occurs at some offset |
| WrapErrors.ContainsInContext | pkg/wrap_errors/errors.go:102-108 | text added before or after a message never hides a "unique constraint" mention from the test |
| WrapErrors.UniqueViolationErrIsRecognised | pkg/wrap_errors/errors.go:74-80 | an error built by UniqueViolationErr is recognised by IsUniqueViolation |
| WrapErrors.PgUniqueViolationIsRecognised | pkg/wrap_errors/errors.go:102-108 | a Postgres error whose text mentions "unique constraint" is recognised by IsUniqueViolation |
| WrapErrors.IsComparesKindsOnly | pkg/wrap_errors/errors.go:32-39 | matching against an `*AppError` target compares kinds only: a not-found error matches any not-found target whatever its message, an internal error never does |
| WrapErrors.ChainMatchesKind | pkg/wrap_errors/errors.go:32-39 | two `*AppError` targets of the same kind are matched by exactly the same errors |
| WrapErrors.NilIsNotUniqueViolation | pkg/wrap_errors/errors.go:102-104 | a nil error is never a unique violation |
| ResponseErrors.ConstructorCodes | pkg/wrap_errors/response.go:33-64 | each constructor of the string-typed AppError gives its code (404, 409, 400, 401, 403, 500) and type text, only InternalErr keeps a cause, and `Error()`/`Unwrap()` give back the message and the cause |
| SendResponse.ProcessError | internal/api/hooks/send_response.go:34-50 | the client sees the first `*AppError`'s message and its cause's text (empty without a cause); any other error shows "Unexpected error ocurred" with the error's own text |
| SendResponse.DetermineErrorStatus | internal/api/hooks/send_response.go:52-70 | an error with an `*AppError` in its chain is answered with that error's code; otherwise the tests go in order: NotFound is 404, else Validation 400, else Unauthorized 401, else AlreadyExists or a unique violation 409, else 500 |
| SendResponse.Send | internal/api/hooks/send_response.go:13-32 | without an error the reply is a success carrying the data under the caller's status; with one it is a failure without data, carrying ProcessError's details under DetermineErrorStatus's status |
| SendResponse.ErrorStatusIgnoresCaller | internal/api/hooks/send_response.go:24-31 | an error reply is the same whatever status and data the caller passed |
| SendResponse.CodelessAppErrorGivesZero | internal/api/hooks/send_response.go:52-56 | an error from UniqueViolationErr is answered with status 0, its message shown as both message and details |
| SendResponse.ConstructedErrorsKeepTheirCodes | internal/api/hooks/send_response.go:52-56 | errors from NotFoundErr, ValidationErr, UnauthorizedErr, AlreadyExistsErr and InternalErr are answered 404, 400, 401, 409 and 500 |
| SendResponse.SentinelStatuses | internal/api/hooks/send_response.go:58-69 | without an `*AppError`, wrapped sentinels map to 404/400/401, a unique-violation sentinel to 409, and a plain error to 409 exactly when its text mentions "unique constraint", else 500 |
| GoInt.ToInt32 | internal/api/worker/access_count.go:139 | `int32(count)` lands in the int32 range, differs from the count by a multiple of 2^32, and is the count itself when it fits |
| GoInt.ToInt32Wraps | internal/adapters/primary/workers/access_count.go:86 | a count of 2^31 converts to -2^31 |
| Redis.IncrementedBy | internal/data/infra/access_count.go:50 | after `INCR`/`INCRBY` the key exists and holds its old value (0 when absent) plus the increment; every other counter reads the same, and only that key can be added |
| Redis.Deleted | internal/data/infra/access_count.go:86 | after `GETDEL` the key is gone, every other counter reads the same, and exactly that key leaves the key set |
| Redis.DrainThenRestore | internal/api/worker/access_count.go:124-150 | an `INCRBY` of the drained value on the key `GETDEL` removed gives back exactly the counters before the drain |
| Redis.Remove | internal/data/infra/cache.go:107 | `LREM key 0 x` keeps exactly the elements other than `x`, and never lengthens the list |
| Redis.Head | internal/data/infra/cache.go:121 | `LTRIM`/`LRANGE 0 stop` keep a prefix of the list, of length stop+1 when the list is that long |
| Redis.Store.constructor | internal/data/db/rdstore/config.go:18-34 | a new client sees no counters, no cached URLs and an empty recent list |
| Redis.Store.Incr | internal/adapters/secondary/volatile/rdstore/access_count.go:16 | a failed `INCR` changes nothing; otherwise the counter goes up by one and the reply is its new value |
| Redis.Store.IncrBy | internal/data/infra/access_count.go:96 | a failed `INCRBY` changes nothing; otherwise the counter goes up by `n` and the reply is its new value |
| Redis.Store.GetDel | internal/data/infra/access_count.go:86 | `GETDEL` answers the old value and removes the key, answers `redis.Nil` and changes nothing when the key is missing, and changes nothing when it fails |
| Redis.Store.Get | internal/data/infra/cache.go:81 | `GET` answers the cached value, `redis.Nil` for a missing key, or an error |
| Redis.Store.Set | internal/data/infra/cache.go:60 | `SET key value EX ttl` stores the value with its TTL unless it fails, in which case nothing changes |
| Redis.Store.RemovePushLen | internal/data/infra/cache.go:106-111 | the `LREM`/`LPUSH`/`LLEN` transaction puts the slug at the head exactly once, keeps the other elements in order, and answers the new length; a failed transaction changes nothing |
| Redis.Store.LTrim | internal/data/infra/cache.go:120-122 | `LTRIM 0 stop` keeps the first stop+1 elements unless it fails |
| Redis.Store.LRange | internal/data/infra/cache.go:152 | `LRANGE 0 stop` answers the first stop+1 elements or an error, changing nothing |
| AccessKeys.AccessKey | internal/data/infra/access_count.go:36 | the counter key is the `access:` prefix followed by the slug |
| AccessKeys.SlugOf | internal/api/worker/access_count.go:113 | cutting the prefix's length off a counter key gives back the slug it was made from |
| AccessKeys.AccessKeyRoundTrip | internal/adapters/primary/workers/access_count.go:63 | every slug's key is a counter key whose slug is the original, and two slugs share a key only when they are equal |
| Durable.Absorbed | internal/api/worker/access_count.go:136-142 | adding a count to a slug's row succeeds exactly when the sum fits the int32 column, changes only that row, and leaves the table alone when no row has that slug |
| Durable.Database.constructor | internal/api/worker/access_count.go:24 | a database handle starts from the given per-slug access counts |
| Durable.Database.IncrementAccessCount | internal/api/worker/access_count.go:136-144 | the write succeeds exactly when the connection holds and the column accepts the sum, and then leaves the table as Absorbed says; otherwise nothing changes |
| Scan.StopAt | internal/data/infra/access_count.go:66-81 | the cursor loop stops at the first reply that fails or returns cursor 0, and no earlier one |
| Scan.ScanAll | internal/adapters/primary/workers/access_count.go:115-136 | when every page lists only `access:*` keys, every key the iteration gathers is a counter key |
| Scan.ScanAllIsConcat | internal/data/infra/access_count.go:62-83 | the iteration fails exactly when the reply that stops it is an error, and otherwise yields the keys of every page read, in order |
| AccessCounting.RetryOutcome | internal/data/infra/access_count.go:41-56 | the increment is exhausted exactly when all three attempts fail without a cancellation; a success happens at the first attempt that does not fail, after failures only; a cancellation is seen only before the second or third attempt |
| AccessCounting.AccessCounter.constructor | internal/data/infra/access_count.go:23-28 | the counter keeps the client it was given |
| AccessCounting.AccessCounter.IncrementAccess | internal/data/infra/access_count.go:30-60 | an empty slug is a validation error with nothing counted; otherwise the slug's counter goes up by one exactly when some attempt succeeds, and the reply is the new count, the context error on cancellation, or an internal error after three failures |
| AccessCounting.AccessCounter.GetAllAccessKeys | internal/data/infra/access_count.go:62-83 | the answer is every key of the full iteration, or an internal error when any call fails |
| AccessCounting.AccessCounter.GetAndDeleteCounter | internal/data/infra/access_count.go:85-93 | an existing counter is answered and removed; a failing `GETDEL` is the internal error "Failed to proccess counter" wrapping the Redis error, a missing key the same error wrapping `redis.Nil`, and both change nothing |
| AccessCounting.AccessCounter.RestoreCounter | internal/data/infra/access_count.go:95-103 | `INCRBY` adds the count back, or reports an internal error and changes nothing |
| AccessCounting.ScanLoop | internal/data/infra/access_count.go:66-81 | the imperative cursor loop computes exactly ScanAll of the replies |
| AccessSync.Dispatched | internal/api/worker/access_count.go:107-111 | the keys that get a goroutine are all of them or those before the position where the context is found done |
| AccessSync.ReconcileFrame | internal/api/worker/access_count.go:118-161 | one key's goroutine touches only that key's counter and its own slug's row, and no row appears or vanishes |
| AccessSync.ReconcileConserves | internal/api/worker/access_count.go:124-156 | one key's goroutine keeps the slug's total of pending plus stored accesses, for a slug with a row, a counter within int32 and a working restore |
| AccessSync.RunConserves | internal/api/worker/access_count.go:107-164 | a pass loses no access of such a slug: what leaves Redis is in the row, and what the row refused is back in Redis |
| AccessSync.RunFrame | internal/adapters/primary/workers/access_count.go:57-112 | counters and rows of keys the pass did not reach are untouched |
| AccessSync.RunTally | internal/adapters/primary/workers/access_count.go:83-105 | processed and failed only grow and count each dispatched key at most once; the adapters worker, which counts non-positive counts as processed, counts each key exactly once |
| AccessSync.RunKeepsRowsInInt32 | internal/api/worker/access_count.go:136-142 | stored counts never leave the int32 range and no row appears or vanishes |
| AccessSync.RunOnAbsentKeys | internal/api/worker/access_count.go:124-130 | keys already gone when the pass reaches them (listed twice by SCAN, or drained elsewhere) only add failures and change nothing else |
| AccessSync.FaultFreeRunMovesCounts | internal/api/worker/access_count.go:107-164 | without faults, a pass over distinct keys with positive counts that fit moves every count into its row, leaves no counter behind, and counts every key as processed |
| AccessSync.ReconcileMoves | internal/api/worker/access_count.go:124-160 | the fault-free goroutine on a positive count that fits deletes the counter and adds the count to the row |
| AccessSync.OversizedCountWraps | internal/api/worker/access_count.go:139 | a counter of 2^31 is drained and stored as -2^31: the int32 conversion loses accesses while the pass reports success |
| AccessSyncWorker.Worker.New | internal/api/worker/access_count.go:33-42 | the worker keeps both handles, runs hourly with concurrency 10, and is neither started nor shut down |
| AccessSyncWorker.Worker.Start | internal/api/worker/access_count.go:44-77 | a nil database is refused with an internal error and nothing starts; otherwise the worker starts |
| AccessSyncWorker.Worker.Stop | internal/api/worker/access_count.go:79-83 | the shutdown channel ends closed, and closing it a second time panics |
| AccessSyncWorker.Worker.Tick | internal/api/worker/access_count.go:55-72 | before start or after the goroutine has returned nothing happens; the first step after start is a pass even when the channel is closed; a later step is a pass while the channel is open, and after close it is a pass when the select takes a ready tick and otherwise the goroutine returns |
| AccessSyncWorker.Worker.ProcessAccessCount | internal/api/worker/access_count.go:85-168 | the stores and the tally after the pass are exactly those of the specified pass, where a non-positive count is neither processed nor failed |
| AccessSyncWorker.Worker.ReconcileKey | internal/api/worker/access_count.go:118-161 | one key's goroutine leaves the stores and the tally as the specified step says |
| AccessSyncWorker.StartHourlyAccessSyncWorker | internal/api/worker/access_count.go:170-186 | no worker without both handles; otherwise a fresh, started worker on those handles |
| HourlyAccessWorker.StartHourlyAccessWorker | internal/adapters/primary/workers/access_count.go:14-33 | the goroutine starts exactly when the database handle is not nil |
| HourlyAccessWorker.GetAllAccessKeys | internal/adapters/primary/workers/access_count.go:115-136 | every key of the full iteration, or the go-redis error itself |
| HourlyAccessWorker.ProcessAccessCount | internal/adapters/primary/workers/access_count.go:35-113 | the stores and the tally after the pass are exactly those of the specified pass, where a non-positive count counts as processed |
| HourlyAccessWorker.ReconcileKey | internal/adapters/primary/workers/access_count.go:67-106 | one key's goroutine leaves the stores and the tally as the specified step says |
| Times.Sub | internal/data/infra/cache.go:131 | `time.Until` gives the exact difference when it fits in a Duration, saturates at the int64 ends otherwise, and is positive exactly when the expiry is still ahead |
| RecentList.RemoveIsSubSeq | internal/data/infra/cache.go:107 | `LREM` keeps some of the list's entries in their order |
| RecentList.RemoveAbsent | internal/data/infra/cache.go:107 | `LREM` of a slug that is not in the list leaves the list as it was |
| RecentList.TouchedShape | internal/data/infra/cache.go:106-111 | after the transaction the slug is at the head and nowhere else, every other entry is still there, and the others keep their relative order |
| RecentList.UpdatedIsBoundedPrefix | internal/data/infra/cache.go:118-125 | a fault-free update leaves at most 20 entries, the slug first: the whole touched list, or its first 20 |
| RecentList.TouchHeadIsFixed | internal/adapters/secondary/volatile/rdstore/cache.go:90-94 | touching the slug already alone at the head leaves the list unchanged |
| RecentList.UpdatedIdempotent | internal/adapters/secondary/volatile/rdstore/cache.go:87-113 | logging the same slug twice in a row leaves the list as logging it once |
| Models.CreateUserInput.ToPgCreateUser | internal/core/domain/models/user.go:30-35 | the query parameters carry the input's name and email |
| Models.UpdateUserInput.ApplyTo | internal/core/domain/models/user.go:37-44 | a present field overwrites the user's, an absent one leaves it, and id and creation time never change |
| Models.UserRef.constructor | internal/core/domain/models/user.go:9-14 | a pointer to the given user record |
| Models.UserRef.Apply | internal/core/domain/models/user.go:37-44 | updating the record through the pointer leaves it equal to ApplyTo of its old value |
| Models.ApplyToIdempotent | internal/core/domain/models/user.go:37-44 | applying an update twice is applying it once, and an empty update changes nothing |
| Models.ShortUrlRef.constructor | internal/core/domain/models/short_url.go:5-12 | a pointer to the given short-URL record |
| UrlCache.CalculateTTL | internal/data/infra/cache.go:129-144 | 24h without an expiry or with the zero time; 0 exactly when the expiry has passed; otherwise at least 5 minutes, never less than the time left, and equal to it above 5 minutes |
| UrlCache.ClampLimit | internal/data/infra/cache.go:148-150 | a limit within 1..20 is kept, any other becomes 20 |
| UrlCache.URLCache.constructor | internal/data/infra/cache.go:29-34 | the cache keeps the client it was given |
| UrlCache.URLCache.LogRecentAccess | internal/data/infra/cache.go:38-72 | a nil short URL is a validation error that changes nothing; otherwise the answer is nil, and the URL is cached under `url:<slug>` for CalculateTTL and the recent list refreshed, exactly when the TTL is positive and `SET` succeeds |
| UrlCache.URLCache.GetURL | internal/data/infra/cache.go:75-100 | an empty slug is a validation error, a store failure an internal error, a miss NotFound, all without touching the list; a hit answers the cached URL and refreshes the recent list |
| UrlCache.URLCache.UpdateListURLs | internal/data/infra/cache.go:103-126 | the recent list ends as the transaction and, when it reported more than 20, the trim leave it |
| UrlCache.URLCache.GetRecentURLs | internal/data/infra/cache.go:147-159 | a failure is an internal error; otherwise the answer is the head of the recent list, as long as the clamped limit or the whole list |
| RdCache.CacheTTL | internal/adapters/secondary/volatile/rdstore/cache.go:27-36 | 24h without an expiry; no caching exactly when the expiry has passed; otherwise exactly the time left |
| RdCache.TtlRulesCompared | internal/adapters/secondary/volatile/rdstore/cache.go:27-36 | the older and newer TTL rules agree without an expiry, once expired, and with 5 minutes or more left; they differ on the zero time (no caching against 24h) and under 5 minutes (the time left against the 5-minute floor) |
| RdCache.LogRecentAccess | internal/adapters/secondary/volatile/rdstore/cache.go:20-47 | the answer is always nil; the URL is cached for CacheTTL and the list refreshed exactly when it has not expired and `SET` succeeds |
| RdCache.GetUrl | internal/adapters/secondary/volatile/rdstore/cache.go:49-73 | the cached URL exactly when `GET` succeeds on a present key, with the recent list refreshed; every failure, a miss or a store error, is the same NotFound and leaves the list alone |
| RdCache.UpdateListUrls | internal/adapters/secondary/volatile/rdstore/cache.go:87-113 | the recent list ends as the transaction and the trim over 20 leave it, the same rule as the newer cache |
| RdAccessCount.IncrementAccess | internal/adapters/secondary/volatile/rdstore/access_count.go:10-20 | one `INCR` of `access:<slug>`, even for an empty slug; a failure changes nothing and is not reported |
| Uuids.Xtob | internal/core/usecases/services/user.service.go:45 | two characters read as a byte exactly when both are hex digits |
| Uuids.Parse | internal/core/usecases/services/user.service.go:45-48 | `uuid.Parse` accepts only strings of length 32, 36, 38 or 45 |
| Uuids.Format | internal/core/usecases/services/user.service.go:34 | `UUID.String()` is 36 characters long |
| Uuids.ParseFormat | internal/core/usecases/services/user.service.go:34-45 | parsing what `String()` prints gives the same identifier back |
| Uuids.FormatInjective | internal/core/usecases/services/user.service.go:34 | different identifiers print differently |
| UserDb.DuplicateKeyIsUniqueViolation | pkg/wrap_errors/errors.go:102-108 | every duplicate-key error Postgres reports is recognised by IsUniqueViolation through its text |
| UserDb.FindById | internal/core/usecases/services/user.service.go:50 | a found position holds a row with that id; none is found only when no row has it |
| UserDb.FindByEmail | internal/core/usecases/services/user.service.go:67 | a found position holds a row with that email; none is found only when no row has it |
| UserDb.ToModel | internal/core/usecases/services/user.service.go:58-63 | the service's user carries the row's printed id, name, email and creation time |
| UserDb.CreateUser | internal/core/usecases/services/user.service.go:93 | the insert succeeds exactly when the driver does not fail and neither the email nor the new id is taken; it appends the new row, otherwise changes nothing, and keeps id and email unique |
| UserDb.UpdateUser | internal/core/usecases/services/user.service.go:126-130 | the update succeeds exactly when the driver is healthy, the id has a row and the email is free or already that row's; it then rewrites name and email of that row in place and returns it; a missing id is `pgx.ErrNoRows`; a failure changes nothing; id and email stay unique |
| UserDb.Without | internal/core/usecases/services/user.service.go:149 | the rows left are exactly the rows whose id differs, and uniqueness is kept |
| UserDb.FindsOwnRow | internal/core/usecases/services/user.service.go:50-67 | in a table with unique ids and emails each row is the one found by its id and by its email |
| UserDb.FindsAppendedRow | internal/core/usecases/services/user.service.go:93 | a row appended with a fresh id and a fresh email is then found by both |
| UserDb.Queries.constructor | internal/core/usecases/services/user.service.go:19-23 | the queries work on the given table |
| UserDb.Queries.CreateUserQuery | internal/core/usecases/services/user.service.go:93 | the table and the reply are those CreateUser specifies |
| UserDb.Queries.UpdateUserQuery | internal/core/usecases/services/user.service.go:126-130 | the table and the reply are those UpdateUser specifies |
| UserDb.Queries.DeleteUserQuery | internal/core/usecases/services/user.service.go:149 | the table and the reply are those DeleteUser specifies |
| UserServiceDb.LookupError | internal/core/usecases/services/user.service.go:51-56 | a lookup error with `pgx.ErrNoRows` in its chain becomes "User not found", any other an internal error wrapping it |
| UserServiceDb.GetUser | internal/core/usecases/services/user.service.go:44-64 | a malformed id is a validation error; a parsed id with a healthy driver answers the model of the row with that id when there is one and NotFound when there is none; a driver error is mapped by LookupError (no-rows NotFound, anything else internal) |
| UserServiceDb.GetUserByEmail | internal/core/usecases/services/user.service.go:66-81 | with a healthy driver the lookup succeeds exactly when some row has the email, and the answer is that row's model; otherwise it is NotFound; a driver error is internal |
| UserServiceDb.EmailInUse | internal/core/usecases/services/user.service.go:84-90 | with a healthy lookup the answer is whether a row has the email; a no-rows error counts as free; any other error that is not NotFound stops with "Could not check email" wrapping the internal lookup error |
| UserServiceDb.CreateUserOutcome | internal/core/usecases/services/user.service.go:83-104 | a taken email is refused as AlreadyExists and a failed email check is internal; with a healthy email check the create succeeds exactly when the write is healthy and the email and new id are free, and a failed write is internal; a success appends the row with the new id and the current time; a refused create changes nothing |
| UserServiceDb.UpdateUserOutcome | internal/core/usecases/services/user.service.go:106-141 | a malformed id is a validation error and a failed or empty lookup is mapped by LookupError; for a found user, a failed write is internal, and otherwise the row is rewritten with ApplyTo's name and email when that email is free or the user's own, and the clash is internal (the duplicate check never fires); a failure changes nothing; ids and emails stay unique |
| UserServiceDb.UpdateUserCheckedOutcome | internal/core/usecases/services/user.service.go:117-124 | the same update with the duplicate check made against the stored email: a failure changes nothing, and uniqueness is kept |
| UserServiceDb.DeleteUserOutcome | internal/core/usecases/services/user.service.go:143-158 | a malformed id is a validation error; a driver error is mapped by LookupError to NotFound or "Failed to delete user" and changes nothing; with a healthy driver the delete succeeds and leaves exactly the rows with other ids |
| UserServiceDb.UpdateNeverReportsDuplicate | internal/core/usecases/services/user.service.go:117-124 | as written, the update never answers "Email already in use by another user", whatever the table, input and faults |
| UserServiceDb.UpdateClashIsInternal | internal/core/usecases/services/user.service.go:117-133 | as written, moving one user onto another user's email fails at the unique constraint and is reported as an internal error, the table unchanged |
| UserServiceDb.UpdateCheckedRejectsClash | internal/core/usecases/services/user.service.go:119-123 | with the check made before the merge the same clash is refused as AlreadyExists |
| UserServiceDb.UpdateCheckedNeverInternal | internal/core/usecases/services/user.service.go:106-141 | with a healthy driver the corrected update succeeds or answers only the invalid id, the missing user or the email clash, never an internal error |
| UserServiceDb.CreatedUserIsFound | internal/core/usecases/services/user.service.go:44-104 | a user just created is found by its id and by its email, as the same model |
| UserServiceDb.DeletedUserIsGone | internal/core/usecases/services/user.service.go:143-158 | after a delete with a healthy driver the user is not found; deleting an absent user is not an error |
| UserServiceDb.UserService.constructor | internal/core/usecases/services/user.service.go:19-23 | the service keeps the queries it was given |
| UserServiceDb.UserService.ListUsers | internal/core/usecases/services/user.service.go:25-42 | a driver error is internal; otherwise one model per row, in the table's order |
| UserServiceDb.UserService.CreateUser | internal/core/usecases/services/user.service.go:83-104 | the reply and the table are those CreateUserOutcome specifies |
| UserServiceDb.UserService.UpdateUser | internal/core/usecases/services/user.service.go:106-141 | the reply and the table are those UpdateUserOutcome specifies, with ApplyTo changing the loaded record through its pointer |
| UserServiceDb.UserService.DeleteUser | internal/core/usecases/services/user.service.go:143-158 | the reply and the table are those DeleteUserOutcome specifies |
| UserServiceRepo.CreateUser | internal/core/usecases/services/user_service.go:23-33 | the email is always looked up first; `Create` is called exactly when the lookup says not found, and its reply is the answer; a registered email is AlreadyExists, any other lookup error internal |
| UserServiceRepo.UpdateUser | internal/core/usecases/services/user_service.go:43-68 | a failed load is "user not found"; the email is looked up exactly when it changes; an email taken by another user is refused; otherwise the single `Update` is the last call, carrying the merged name and email, and its reply is the answer |
| ShortUrlDb.FindById | internal/adapters/secondary/persistence/infra/short_url.infra.go:41 | a found position holds a row with that id; none is found only when no row has it |
| ShortUrlDb.FindBySlug | internal/adapters/secondary/persistence/infra/short_url.infra.go:68 | a found position holds a row with that slug; none is found only when no row has it |
| ShortUrlDb.GetById | internal/adapters/secondary/persistence/infra/short_url.infra.go:41 | with a healthy driver a present id answers its row and a missing id `pgx.ErrNoRows`; a driver fault is answered as is |
| ShortUrlDb.GetBySlug | internal/adapters/secondary/persistence/infra/short_url.infra.go:68 | a found row has the slug; with a healthy driver the lookup fails exactly when no row has the slug, with `pgx.ErrNoRows` |
| ShortUrlDb.OwnedBy | internal/adapters/secondary/persistence/infra/short_url.infra.go:115 | exactly the rows of the user, each taken from the table |
| ShortUrlDb.Create | internal/adapters/secondary/persistence/infra/short_url.infra.go:29 | the insert succeeds exactly when the driver holds and neither the slug nor the new id is taken; it appends a row with no accesses, created now, and answers its id; a taken slug is the duplicate-key error on the slug constraint; slugs and ids stay unique |
| ShortUrlDb.Update | internal/adapters/secondary/persistence/infra/short_url.infra.go:100 | the update succeeds exactly when the driver is healthy, the id has a row and the slug is free or already that row's; it then rewrites slug, URL and expiry of that row in place; a missing id is `pgx.ErrNoRows`; a failure changes nothing |
| ShortUrlDb.Without | internal/adapters/secondary/persistence/infra/short_url.infra.go:108 | the rows left are exactly those with another id, and uniqueness is kept |
| ShortUrlDb.UrlTable.constructor | internal/adapters/secondary/persistence/infra/short_url.infra.go:22-26 | the queries work on the given table |
| ShortUrlDb.UrlTable.CreateShortUrl | internal/adapters/secondary/persistence/infra/short_url.infra.go:29 | the table and the reply are those Create specifies |
| ShortUrlDb.UrlTable.UpdateShortUrl | internal/adapters/secondary/persistence/infra/short_url.infra.go:100 | the table and the reply are those Update specifies |
| ShortUrlDb.UrlTable.DeleteShortUrl | internal/adapters/secondary/persistence/infra/short_url.infra.go:108 | the table and the reply are those Delete specifies |
| ShortUrlInfra.ExpiresOf | internal/adapters/secondary/persistence/infra/short_url.infra.go:58-62 | the model's expiry is nil exactly when the column is NULL, and the column's time otherwise |
| ShortUrlInfra.ToModel | internal/adapters/secondary/persistence/infra/short_url.infra.go:49-62 | the model carries the row's printed ids, slug, URL, creation time, the nullable expiry and the access count it is given |
| ShortUrlInfra.CreateError | internal/adapters/secondary/persistence/infra/short_url.infra.go:30-35 | a unique violation is passed through unchanged, any other error becomes "something went wrong" wrapping it |
| ShortUrlInfra.CreateOutcome | internal/adapters/secondary/persistence/infra/short_url.infra.go:28-38 | the table changes as the insert says; the insert succeeds exactly when the driver is healthy and both the slug and the new id are free, and then answers the printed new id; a taken slug or a taken id reaches the caller as the driver's duplicate-key error for that constraint; a driver error is classified by CreateError |
| ShortUrlInfra.GetShortUrl | internal/adapters/secondary/persistence/infra/short_url.infra.go:40-65 | with a healthy driver a present id answers the model of its row with the row's durable access count, and a missing id or a `pgx.ErrNoRows` fault is "Short URL not fund"; another driver error is internal |
| ShortUrlInfra.GetBySlug | internal/adapters/secondary/persistence/infra/short_url.infra.go:67-97 | a missing slug or a `pgx.ErrNoRows` fault is NotFound naming the slug; a row whose valid expiry is past is "short url expired" (401); otherwise its model without access count; another driver error is internal |
| ShortUrlInfra.GetBySlugAnswersLiveUrls | internal/adapters/secondary/persistence/infra/short_url.infra.go:67-97 | with a healthy driver a slug is answered exactly when some row has it and has not expired |
| ShortUrlInfra.Repository.constructor | internal/adapters/secondary/persistence/infra/short_url.infra.go:22-26 | the repository keeps the queries it was given |
| ShortUrlInfra.Repository.Create | internal/adapters/secondary/persistence/infra/short_url.infra.go:28-38 | the reply and the table are those CreateOutcome specifies |
| ShortUrlInfra.Repository.Update | internal/adapters/secondary/persistence/infra/short_url.infra.go:99-105 | the table changes as the update query says; the reply is the requested id printed, or the driver's error unchanged |
| ShortUrlInfra.Repository.Delete | internal/adapters/secondary/persistence/infra/short_url.infra.go:107-112 | the row goes as the delete query says; any driver error becomes "something went wrong" |
| ShortUrlInfra.Repository.List | internal/adapters/secondary/persistence/infra/short_url.infra.go:114-139 | a driver error is internal; otherwise one model per row of the user in table order with its access count, and the nil slice when the user has none |
| ShortUrlRepository.ToModel | internal/adapters/secondary/persistence/repositories/short_url.repository.go:47-54 | this mapping always points the expiry at the column's time, even when the column is NULL, and carries no access count |
| ShortUrlRepository.NullExpiryReadsAsZeroTime | internal/adapters/secondary/persistence/repositories/short_url.repository.go:52 | a NULL expiry reads as Go's zero time here, where the newer repository reads it as nil |
| ShortUrlRepository.GetShortUrl | internal/adapters/secondary/persistence/repositories/short_url.repository.go:38-55 | with a healthy driver a present id answers this mapping of its row, and a missing id or a `pgx.ErrNoRows` fault is "Short URL not fund"; another driver error is internal |
| ShortUrlRepository.GetBySlug | internal/adapters/secondary/persistence/repositories/short_url.repository.go:57-78 | a missing slug or a `pgx.ErrNoRows` fault is "Short URL not fund"; an expired URL is Forbidden, code 403; otherwise this mapping of the row; another driver error is internal |
| ShortUrlRepository.GetBySlugAgreesWithInfra | internal/adapters/secondary/persistence/repositories/short_url.repository.go:57-78 | the older and newer repositories answer exactly the same slugs with the same record, apart from the expiry mapping |
| ShortUrlRepository.Repository.constructor | internal/adapters/secondary/persistence/repositories/short_url.repository.go:20-24 | the repository keeps the queries it was given, which reach both tables |
| ShortUrlRepository.Repository.Create | internal/adapters/secondary/persistence/repositories/short_url.repository.go:26-36 | the same outcome as the newer repository's Create |
| ShortUrlRepository.Repository.Update | internal/adapters/secondary/persistence/repositories/short_url.repository.go:80-86 | the table becomes the UPDATE's; the driver's error is answered unchanged and a success answers the id's text |
| ShortUrlRepository.Repository.Delete | internal/adapters/secondary/persistence/repositories/short_url.repository.go:88-90 | as written, the call deletes from the users table the row with the short URL's id, and the reply is that query's |
| ShortUrlRepository.Repository.DeleteShortUrl | internal/adapters/secondary/persistence/repositories/short_url.repository.go:88-90 | as intended, the short URL's own row is deleted |
| ShortUrlRepository.Repository.List | internal/adapters/secondary/persistence/repositories/short_url.repository.go:92-111 | a driver error is internal; otherwise one model per row of the user, in table order, and the nil slice when the user has none |
| ShortUrlRepository.DeleteKeepsTheShortUrl | internal/adapters/secondary/persistence/repositories/short_url.repository.go:88-90 | as written, a delete through the repository reports success, leaves the short-URL table untouched with the row still found by its id, and removes any user sharing the id |
| ShortUrlRepository.DeleteShortUrlRemovesIt | internal/adapters/secondary/persistence/repositories/short_url.repository.go:88-90 | the intended delete succeeds and the id is no longer found |
| ShortUrlService.GenSlug | internal/core/usecases/services/short_url.service.go:110-132 | a slug is answered only when it was drawn at some attempt up to 5, the lookup found it free, and every earlier attempt drew a slug in use; the attempts run out exactly when every attempt up to 5 drew a slug in use |
| ShortUrlService.GenSlugStopsAtFirstFreeAttempt | internal/core/usecases/services/short_url.service.go:115-131 | the first attempt whose slug is not in use decides: a generator failure or a failed lookup stops with its own internal error, a free slug is the answer |
| ShortUrlService.CreateShortUrl | internal/core/usecases/services/short_url.service.go:28-46 | the slug is generated before the user id is parsed, and its error comes first; a bad user id is internal; with a free slug and a good user id, a nil expiry is a nil dereference that reaches no query, and otherwise Create receives the parsed user, the free slug, the URL and the valid expiry, and its reply is the answer |
| ShortUrlService.CreateWithoutExpiryPanics | internal/core/usecases/services/short_url.service.go:41-45 | a create without an expiry, a free slug and a well-formed user id ends in a nil dereference and sends nothing |
| ShortUrlService.CreateShortUrlFixed | internal/core/usecases/services/short_url.service.go:28-46 | the corrected create never panics; it sends a query exactly when the slug is free and the user id parses, with the parsed user, the free slug and the URL, and the expiry read back from what it sends is the one requested, NULL when there is none |
| ShortUrlService.CreateFixedAgreesWithExpiry | internal/core/usecases/services/short_url.service.go:41-45 | on a request that carries an expiry, the corrected create sends and answers exactly what the as-written one does |
| ShortUrlService.Forward | internal/core/usecases/services/short_url.service.go:48-55 | a malformed id is internal and reaches nothing; a good id is passed on and the repository's reply is the answer |
| ShortUrlService.Merged | internal/core/usecases/services/short_url.service.go:72-77 | only the URL and the expiry change, each to the input's value when it is given |
| ShortUrlService.UpdateShortUrl | internal/core/usecases/services/short_url.service.go:61-90 | a malformed id is internal, a failed load "short err not found", a failed slug its own error; a merged record without expiry is a nil dereference; otherwise Update receives the id, a new free slug, the merged URL and expiry, and its reply is the answer |
| ShortUrlService.UpdateSendsFreshSlug | internal/core/usecases/services/short_url.service.go:79-89 | an update that reaches the repository carries a slug the lookup reported free, so never the stored slug when that one is found |
| HashSlug.SymbolsAreTheAlphanumerics | pkg/utils/create_hash_slug.go:10 | the alphabet is exactly the 62 ASCII letters and digits, each listed once |
| HashSlug.CreateHashSlug | pkg/utils/create_hash_slug.go:12-24 | the slug is made exactly when all ten draws succeed, and is then the ten drawn symbols, all alphanumeric; otherwise the error wraps the first failed draw |
| Http.Writer.constructor | internal/api/handlers.go:269 | a handler's response writer starts with no status, no body and no `Location` |
| Http.Writer.WriteHeader | internal/api/hooks/send_response.go:74 | only the first header write sets the status; later ones leave it |
| Http.Writer.Write | internal/api/utils.go:64 | a body write appends its chunk and fixes the status at 200 unless one was already sent |
| Http.Writer.Error | internal/api/utils.go:36 | `http.Error` sets the status unless one was already sent, then appends the message as a line |
| Http.Writer.Redirect | internal/api/handlers.go:288 | `http.Redirect` sets `Location` only while no status has been sent, and sets the status the same way |
| Http.Writer.SendJSON | internal/api/utils.go:57-65 | the JSON is appended and the status is 200 unless one was already sent |
| Http.Writer.SendReply | internal/api/hooks/send_response.go:72-76 | the reply's status is written first, then its envelope is appended |
| Http.Writer.SendErrors | pkg/utils/send_errors.go:32-43 | an error with an `*AppError` in its chain is answered with that error's code, message and cause; any other with 500, "Unexpected error" and the error itself |
| ApiHandlers.DrawnSlug | internal/api/utils.go:42-55 | a slug exists exactly when all ten draws succeed, and it is ten alphanumeric characters |
| ApiHandlers.CreateHashSlug | internal/api/utils.go:42-55 | the answer is ok exactly when all ten draws succeed, with the drawn slug and nothing written; otherwise an empty slug and a 500 "Failed to create a slug url" |
| ApiHandlers.CreateExpiry | internal/api/handlers.go:185-190 | the stored expiry is valid exactly when one is given and it is not the zero time, and then it is that time; otherwise it is NULL |
| ApiHandlers.Step | internal/api/handlers.go:197-221 | one attempt never exhausts the loop; only an insert changes the table, and it appends exactly one row under the drawn slug |
| ApiHandlers.StepEndings | internal/api/handlers.go:197-217 | an attempt has no slug exactly when a draw fails; it retries exactly when its slug is taken or the insert fails with the slug-constraint `*pgconn.PgError`; an insert uses the database's new id, on a healthy driver, with a free slug |
| ApiHandlers.Save | internal/api/handlers.go:195-224 | the save never ends on a retry, and changes the table only by an insert |
| ApiHandlers.SaveExhausted | internal/api/handlers.go:196-223 | the save answers "could not generate unique slug" exactly when all of the five attempts clash |
| ApiHandlers.SaveEndsWithAStep | internal/api/handlers.go:196-221 | a save that is not exhausted ends the way one of its attempts does |
| ApiHandlers.SaveStopsAtFirstNonClash | internal/api/handlers.go:211-221 | the save stops at the first attempt that does not clash and ends exactly as that attempt |
| ApiHandlers.SaveAddsAtMostOneRow | internal/api/handlers.go:203-208 | a save adds at most one row: the requested user, URL and expiry, created now, with no accesses, under a fresh ten-character alphanumeric slug and the new id |
| ApiHandlers.SuccessIsAlsoReportedAsFailure | internal/api/handlers.go:211-221 | as written, a first successful insert answers the new id followed by "someting went wrong", where the intended body is the id alone |
| ApiHandlers.ApiHandler.constructor | internal/api/handlers.go:19 | the handler keeps the user and short-URL queries it was given |
| ApiHandlers.ApiHandler.InsertWithNewSlug | internal/api/handlers.go:197-209 | one attempt leaves the table and ending as Step says; only a failed draw writes, a 500 with its message |
| ApiHandlers.ApiHandler.SaveNewShortUrl | internal/api/handlers.go:195-224 | as written, the table ends as Save says, the body is the as-written body of the ending, and the status 200 on an insert, 500 otherwise |
| ApiHandlers.ApiHandler.SaveNewShortUrlFixed | internal/api/handlers.go:211-213 | with a return after the id is sent, the same table and status, and a body with the id alone on an insert |
| ApiHandlers.ApiHandler.HandleCreateShortUrl | internal/api/handlers.go:169-193 | an invalid URL is 400 "invalid url" with no insert; otherwise the save runs with the expiry CreateExpiry gives |
| ApiHandlers.ApiHandler.HandleRedirect | internal/api/handlers.go:269-289 | a missing row is 404, any other lookup error 500, an expired URL 410; the answer is a 302 exactly when the URL exists and has not expired, and then `Location` is its original URL and the body is empty |
| ApiHandlers.ApiHandler.HandelUpdateUser | internal/api/handlers.go:102-144 | a malformed id is 400 and a failed lookup 404, with no update; otherwise each absent field keeps its stored value, the table changes as the update query says, and the answer is the id (200) or 500 |
| ApiHandlers.ApiHandler.HandleUpdateShortUrl | internal/api/handlers.go:291-356 | a malformed id is 400, a failed lookup 404, an invalid new URL 400, a failed shortener 500, none of them changing the table; otherwise the update carries the merged URL, a new slug only with a new URL, and the given or stored expiry, answering the id (200) or 500 |
| ApiHandlers.UpdateMergeIsApplyTo | internal/api/handlers.go:126-134 | the handler's field merge is ApplyTo of the partial update on the stored user |
| ApiHandlers.SlugChangesOnlyWithNewUrl | internal/api/handlers.go:316-348 | after a successful update without a new URL the slug and URL are the stored ones; with a new URL the slug is the one the shortener answered (possibly the stored one) and the URL the new one; the expiry is replaced exactly when a new one is given |
| AdapterRedirect.LookupErrorsAreAppErrors | internal/adapters/secondary/persistence/infra/short_url.infra.go:67-97 | every error of the slug lookup is an `*AppError` with code 401, 404 or 500 |
| AdapterRedirect.Handler.constructor | internal/adapters/primary/api/handlers.go:277-300 | the handler keeps the Redis client and the short-URL table it was given |
| AdapterRedirect.Handler.HandleRedirect | internal/adapters/primary/api/handlers.go:277-300 | a cache hit is a 302 to the cached URL without a lookup; the lookup happens exactly on a miss or a cache error; its error is answered by SendErrors with the error's code and leaves the cache alone; a found URL is cached as LogRecentAccess says and redirected to; every 302 counts one access unless the `INCR` fails |
| ServerRedirect.Handler.constructor | internal/api/server/handler.go:277-298 | the handler keeps the URL cache and the access counter it was given |
| ServerRedirect.Handler.HandleRedirect | internal/api/server/handler.go:277-298 | the service is asked exactly on an empty slug, a cache error or a miss; a hit is a 302 to the cached URL; a lookup error gets SendResponse's reply, whose status is the error's own and not the 500 passed, with the cache untouched; a found URL is cached as LogRecentAccess says and redirected to; each redirect counts as IncrementAccess says |

## Left out

- Concurrency: goroutines run inline. A worker pass is a sequential loop over the scanned keys, so the semaphore of capacity 10, the `WaitGroup` and the tally mutex are not modelled. The live worker already waits for each key before it starts the next one.
- The worker's goroutine is modelled one step at a time by `Tick`: the first, unconditional pass, then one `select` per step, where a parameter says which ready case Go's `select` picks once the shutdown channel is closed. `Stop` only closes the channel; its wait for the goroutine is the caller's sequence of `Tick` steps up to the goroutine's return. The infinite loop, the 5-minute pass timeout and wall-clock time are not modelled. Cancellation is the index of the first key that is not dispatched.
- The crash window between a drain and its restore: a process crash is outside the model.
- Redis:
  - int64 overflow of `INCR` and `INCRBY` is not modelled.
  - Key TTL expiry over time is not modelled; a cached entry records its TTL but never expires.
  - The sleep between retries of `IncrementAccess`, and all logging (`slog`, `log`), are not modelled.
  - Duplicate and stale `SCAN` results are modelled only through the scan replies being parameters; a key listed by the scan but gone by drain time is covered by `AccessSync.RunOnAbsentKeys`.
  - The recent list lives under `url:recent`, which a slug named `recent` would share with its cache entry. The model keeps the list in its own field.
- Durable.Database.IncrementAccessCount: the SQL text is not part of this model. It is modelled as additive on an existing row, leaving a missing slug unchanged and failing when the sum leaves int32.
- The SQL queries of the Postgres stores are not modelled as SQL. Their behaviour is modelled by the row tables. One set of tables stands for both the `internal/api` and the adapters' `pgstore`. `pgtype.Timestamp` and `pgtype.Timestamptz` are both modelled as nanoseconds since the epoch.
- ShortUrlService.UpdateShortUrl: the same dereference of a nil expiry at short_url.service.go:88 is modelled as written (a merged record without expiry ends in a nil dereference); no corrected update is given.
- Http.Writer.Redirect: the URL is stored as given; `http.Redirect`'s resolution of a relative or scheme-less URL against the request path is not modelled, because the handlers pass the stored original URL, and the create handlers accept only `http` and `https` URLs.
- HTTP plumbing is not modelled: routing, middleware, JWT, server start-up, request-body decoding (`parseAndValidate`), JSON marshalling failures in `sendJSON`, and the HTML body `http.Redirect` writes.
- Http.Writer.WriteHeader: net/http panics on a status outside 100-999. The code 0 of `UniqueViolationErr` can reach it through `SendResponse` or `SendErrors`. The model leaves the status unset instead, so the next write fixes 200.
- `validateUrl` depends on `net/url` parsing. It is the boolean parameter `urlValid`. The external shortener the handlers call is the parameter `shortened`.
- `AppError.As` of `errors.go` and `Is` of `response.go` call themselves on the same receiver and never return, so they are not modelled. `HealthCheck` in both `rdstore` files pings the network and is left out.
- `uuid.Parse` is modelled for its 32-, 36-, 38- and 45-character forms over single-byte characters. Multi-byte input and the exact text of its error are not modelled.
- Models.UpdateUserInput.ApplyTo: modelled on values, returning the merged user. The handlers that apply it through a pointer use the `UserRef` class.
- ServerRedirect.Handler.HandleRedirect: the service generation behind `GetShortUrlBySlug` is not part of this model; its answer is the parameter `lookup`.
- `GetShortUrlBySlug` of the short-URL service only delegates to the repository; the repository's lookup is modelled instead.
- RdCache.LogRecentAccess: takes a non-nil short URL. With nil, the source's goroutine dereferences it and the process crashes, which the model does not represent.
- `models/short_url.go` declares no `AccessCount` field, yet the infra mapping sets one. The model adds the field.
- The adapters' handler calls `rdstore.GetUrl` and `LogRecentAccess` with an `rdb` argument that the `rdstore` file does not declare. The model passes the store as a parameter.
- The CRUD handlers outside the redirect and short-URL creation/update paths are not modelled. In `internal/api/handlers.go` these are `handleCreateUser`, `handleGetUsers`, `handleGetUserById`, `handleGetUserByEmail`, `handleDeleteUser`, `handleGetShortUrlsByUser`, `handleGetShorUrl` and `handleDeleteShortUrl`. The other handlers of the adapters' and server's handler files are likewise not modelled. Each of these only delegates to the services modelled here.

## Findings

| source | as written | input that shows it | evidently intended | confidence | as-written member | corrected member |
|---|---|---|---|---|---|---|
| internal/core/usecases/services/user.service.go:117-124 | `ApplyTo` overwrites the stored email before it is compared with the new one, so the duplicate-email check never fires; the clash reaches the unique constraint and is answered as Internal (500) | user i is updated with the email of another user j | the clash is answered AlreadyExists (409) | not executed | UserServiceDb.UpdateClashIsInternal | UserServiceDb.UpdateCheckedRejectsClash |
| internal/adapters/secondary/persistence/repositories/short_url.repository.go:88-90 | `Delete` runs the `DeleteUser` query with the short URL's id | any existing short-URL id that is no user's id | the short URL's own row is deleted | not executed | ShortUrlRepository.DeleteKeepsTheShortUrl | ShortUrlRepository.DeleteShortUrlRemovesIt |
| internal/api/handlers.go:211-221 | after the success reply the function does not return, so the body also gets the error reply "someting went wrong"; the status stays 200 | an empty table where the first slug draw and the insert succeed | the reply holds the new id alone | not executed | ApiHandlers.SuccessIsAlsoReportedAsFailure | ApiHandlers.ApiHandler.SaveNewShortUrlFixed |
| internal/core/usecases/services/short_url.service.go:44 | the expiry pointer is dereferenced in the same expression whose `Valid: input.ExpiresAt != nil` is meant to handle nil, so a create without an expiry panics; the input's JSON tag is `epires_at` (internal/core/usecases/ports/short_url.usecase.go:14), so a client's `expires_at` never fills it | a create request without an expiry, with a free slug and a well-formed user id, as in cmd/test/short_url_test/create_test.go:19-35, which expects 201 | the URL is stored with a NULL expiry | not executed | ShortUrlService.CreateWithoutExpiryPanics | ShortUrlService.CreateShortUrlFixed |
