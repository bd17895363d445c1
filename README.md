# Buy-corn rate limiter — a Dafny model

This project models the core of a single-action purchase endpoint ("buy corn")
and the rate limiter that guards it: each client may buy once per fixed
60-second window.

- `config.dfy` (`RateLimitConfig`): the window length (60 s, so 60000 ms), the
  limit of one purchase per window and the key namespace `rate-limit:buy-corn`.
- `types.dfy` (`BuyCornTypes`): the client identifier (an id and a kind:
  `Ip`, `Session` or `User`), the admission decision and the debug snapshot.
- `rate_limiter.dfy` (`RateLimiter`): the in-memory store, a class
  `MockStore` whose field `entries: map<string, int>` maps the namespaced key
  `rate-limit:buy-corn:<id>` to the last attempt's timestamp in milliseconds.
  `RecordAttempt` and `ResetRateLimit` update it in place; the admission check
  `CheckRateLimit` and the snapshot `RateLimitDebug` are functions of the
  store's value, so they cannot change it. The lemmas state what the limiter
  promises across calls: admission of a fresh client, denial inside the window,
  admission once it closes, per-client isolation, idempotent reset and the
  agreement of the snapshot with the check.
- `buy_route.dfy` (`BuyRoute`): the purchase handler's decisions. The client
  is the first comma-separated entry of `x-forwarded-for` (or `"unknown"`),
  Retry-After is a ceiling division of the milliseconds left, and a purchase
  is recorded only when the check admits the client. `HandlePost` is the
  decision on a store value and `Post` performs it against a `MockStore`.

The clock is the explicit parameter `now` (milliseconds) everywhere.

Two behaviours of the code worth noting:

- The limiter tests the stored timestamp with a falsy check
  (src/lib/rate-limiter.ts:19), so a timestamp of 0 reads as "no record". An
  attempt recorded at time 0 is therefore followed by an admission at time 0
  (`ZeroTimestampReadsAsNoRecord`). Any other timestamp opens a 60000 ms window.
- The limiter only uses `mockStore`, the in-process map of
  src/lib/rate-limiter.ts:4. It has no persistent store, no per-call store
  selection and no store-unavailable error.

## Model

| member | source | states |
|---|---|---|
| `RateLimiter.RedisKeyInjective` | src/lib/rate-limiter.ts:6-8 | two client ids get the same store key exactly when they are equal, so buckets never collide across ids |
| `RateLimiter.RedisKey` | src/lib/rate-limiter.ts:6-8 | the key is the namespace `rate-limit:buy-corn`, a colon, then the raw id, and the id can be read back from the key |
| `RateLimiter.ResetTimestamp` | src/lib/rate-limiter.ts:10-12 | the reset instant is the given attempt time plus the 60-second window in milliseconds |
| `RateLimiter.HasRecord` | src/lib/rate-limiter.ts:19 | a client has no honoured record exactly when its key is absent or holds 0, the two falsy lookups of `!lastAttempt` (also line 61) |
| `RateLimiter.BucketIgnoresKind` | src/lib/rate-limiter.ts:16 | identifiers with the same id share one bucket whatever their kinds: the same key, decision and snapshot |
| `RateLimiter.CheckRateLimit` | src/lib/rate-limiter.ts:14-45 | admitted iff there is no truthy record or at least 60000 ms have passed since it; admitted gives remaining 0 and reset now + window, denied gives remaining 0 and reset last + window; limit is 1; the reset instant is always after now |
| `RateLimiter.FreshClientAdmitted` | src/lib/rate-limiter.ts:19-26 | a client with no record gets exactly allowed, remaining 0, reset now + 60000, limit 1 |
| `RateLimiter.DeniedWithinWindow` | src/lib/rate-limiter.ts:28-44 | after recording at t (t not 0), a check less than a window later is denied with remaining 0 and reset t + window |
| `RateLimiter.AdmittedAfterWindow` | src/lib/rate-limiter.ts:31-38 | after recording at t, a check at or after t + window is admitted with reset at the check time + window |
| `RateLimiter.AdmittedExactlyFromResetTimestamp` | src/lib/rate-limiter.ts:10-12 | after recording at t (t not 0), a check is admitted if and only if it is at or after the reset timestamp t + window |
| `RateLimiter.ZeroTimestampReadsAsNoRecord` | src/lib/rate-limiter.ts:19 | a record holding timestamp 0 is treated as no record: the check admits and the snapshot counts no request |
| `RateLimiter.AdmissionMonotone` | src/lib/rate-limiter.ts:28-38 | on an unchanged store, a client admitted at t1 is admitted at every later t2 |
| `RateLimiter.DenialResetAnchored` | src/lib/rate-limiter.ts:39-44 | all denials on an unchanged store name the same reset instant, so the time left strictly shrinks as the check time grows |
| `RateLimiter.RateLimitDebug` | src/lib/rate-limiter.ts:57-84 | the snapshot carries the id and now; its window starts at the truthy last attempt (else now) and is exactly 60000 ms wide; it is allowed iff no record or the window has passed; request count is 0 iff allowed, else 1 |
| `RateLimiter.DebugAgreesWithCheck` | src/lib/rate-limiter.ts:61-83 | the snapshot's allowed flag equals the check's decision, and while denied its window ends at the check's reset instant |
| `RateLimiter.MockStore.constructor` | src/lib/rate-limiter.ts:4 | the store starts empty |
| `RateLimiter.MockStore.RecordAttempt` | src/lib/rate-limiter.ts:47-52 | the client's key now maps to now; every other key is unchanged |
| `RateLimiter.RecordIsolation` | src/lib/rate-limiter.ts:47-52 | recording for one client leaves every other client's decision and snapshot unchanged |
| `RateLimiter.MockStore.ResetRateLimit` | src/lib/rate-limiter.ts:53-56 | the client's key is absent afterwards; every other key is unchanged |
| `RateLimiter.ResetIsolation` | src/lib/rate-limiter.ts:53-56 | resetting one client leaves every other client's decision and snapshot unchanged |
| `RateLimiter.ResetIdempotent` | src/lib/rate-limiter.ts:55 | resetting twice leaves the same store as resetting once, and a reset client is admitted at once |
| `BuyRoute.FirstField` | src/api/buy/route.ts:9 | the result is the longest comma-free prefix of the header: a prefix, with no comma, followed by a comma or the end |
| `BuyRoute.FirstFieldOfSingleEntry` | src/api/buy/route.ts:9 | a header without commas is taken whole |
| `BuyRoute.ClientIdentifierOf` | src/api/buy/route.ts:7-15 | kind is always `Ip`; a missing or empty header gives "unknown"; otherwise the id is the header's first comma-separated entry, untrimmed |
| `BuyRoute.RetryAfter` | src/api/buy/route.ts:17-21 | the least integer k with 1000 k at least the milliseconds left (the ceiling of them in seconds) |
| `BuyRoute.RetryAfterWholeSeconds` | src/api/buy/route.ts:19-20 | n whole seconds left give Retry-After n (45000 ms gives 45) |
| `BuyRoute.ResetSeconds` | src/api/buy/route.ts:41 | the reset header is the reset instant rounded down to whole seconds |
| `BuyRoute.DenialRetryAfterInRange` | src/api/buy/route.ts:27-28 | a denied check always gives Retry-After of at least 1 second, and at most 60 when the last attempt is not in the future |
| `BuyRoute.HandlePost` | src/api/buy/route.ts:23-66 | status 200 iff the check admits, else 429; a refusal leaves the store unchanged and carries the Retry-After of the check's reset; an admission records the attempt at now; both carry limit 1, remaining 0 and the reset instant in seconds |
| `BuyRoute.Post` | src/api/buy/route.ts:23-66 | checks, records only when admitted, and returns the response and new store that `HandlePost` gives |
| `BuyRoute.SecondPurchaseWithinWindowRefused` | src/tests/integration/buy-api.test.ts:44-56 | from a clean slate, two purchases from one header within a window are answered 200 then 429, and the refusal records nothing |
| `BuyRoute.DistinctClientsBothPurchase` | src/tests/integration/buy-api.test.ts:78-90 | from a clean slate, purchases from two different client ids are both answered 200 |

## Left out

- The persistent key-value store client (src/lib/redis.ts) and the key TTL of 65 seconds: the limiter never calls that client and its map has no expiry.
- Asynchrony and concurrency: every call is one atomic step, so the check-then-record race between concurrent requests is not modelled.
- The clock: `Date.now()` is the parameter `now`. `Post` uses one `now` for the check, the record and the Retry-After, where the handler reads the clock three times.
- Response construction: JSON bodies, message strings, ISO dates and header names are dropped; a response keeps its status, limit, remaining count, reset seconds and Retry-After. The `GET` handler (405) is framework plumbing.
- The 500 path of the handler's `try`/`catch` (src/api/buy/route.ts:67-77): none of the modelled steps throws, so the model has no 500 response.
- JavaScript numbers: timestamps are unbounded integers; fractional and NaN timestamps are not modelled, and `Math.ceil(diff / 1000)` is taken as exact, which holds for integer differences below 2^53.
- The limit is the constant 1: the check does not count requests, so its `remaining = limit - 1` is not a general quota model.
- The UI (button countdown, React hook, page) and the browser-side service that calls the endpoint: presentation and network I/O.
